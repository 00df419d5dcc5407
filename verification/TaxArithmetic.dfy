/**
 Line totals, tax totals and monetary totals (packages/core/src/invoices/shared-tax-arithmetic.ts,
 shared-debit-note-arithmetic.ts, and the accumulation in base.ts), over exact decimals.

 Taxes are computed twice: per line from the truncated line amount, and for the document from the untruncated one.
 Amounts are counted in cents here, so that `toFixedNoRounding(amount, 2)` cuts off everything after the point.
 */
module TaxArithmetic {
  import opened Options

  // ---- Cents -----------------------------------------------------------------------------------

  predicate IsWholeCents(x: real) {
    x == x.Floor as real
  }

  /** The next whole number of cents toward zero. */
  function TowardZero(x: real): (cents: int)
    ensures x >= 0.0 ==> 0 <= cents && cents as real <= x < cents as real + 1.0
    ensures x <= 0.0 ==> cents <= 0 && cents as real - 1.0 < x <= cents as real
  {
    if x >= 0.0 then x.Floor else -((-x).Floor)
  }

  /** `parseFloat(toFixedNoRounding(x, 2))` */
  function Truncated(x: real): real {
    TowardZero(x) as real
  }

  /** `parseFloat(x.toFixed(2))`: the nearest whole number of cents, ties away from zero. */
  function Rounded(x: real): real {
    if x >= 0.0 then (x + 0.5).Floor as real else (-((-x + 0.5).Floor)) as real
  }

  lemma FloorIs(x: real, cents: int)
    requires cents as real <= x < cents as real + 1.0
    ensures x.Floor == cents
  {
  }

  lemma TruncatedIsWhole(x: real)
    ensures IsWholeCents(Truncated(x))
  {
    FloorIs(Truncated(x), TowardZero(x));
  }

  lemma WholeStays(x: real)
    requires IsWholeCents(x)
    ensures Truncated(x) == x && Rounded(x) == x
  {
    FloorIs(x + 0.5, x.Floor);
    FloorIs(-x, -x.Floor);
    FloorIs(-x + 0.5, -x.Floor);
  }

  lemma WholeCentsAdd(x: real, y: real)
    requires IsWholeCents(x) && IsWholeCents(y)
    ensures IsWholeCents(x + y)
  {
    FloorIs(x + y, x.Floor + y.Floor);
  }

  // ---- Lines -----------------------------------------------------------------------------------

  /** The numbers of a line item; the percentages of its other taxes follow its VAT percentage. */
  datatype Line = Line(price: real, quantity: real, discounts: seq<real>, vatPercent: real, otherTaxes: seq<real>)

  datatype Subtotal = Subtotal(taxableAmount: real, taxAmount: real, percent: real)

  datatype LineTotals = LineTotals(
    net: real, taxes: real, discounts: real,
    taxAmount: real, roundingAmount: Option<real>, subtotal: Option<Subtotal>)

  function Sum(xs: seq<real>): real {
    if xs == [] then 0.0 else Sum(xs[..|xs| - 1]) + xs[|xs| - 1]
  }

  /** The amount of a line before truncation. */
  function Gross(line: Line): real {
    line.price * line.quantity - Sum(line.discounts)
  }

  function Net(line: Line): real {
    Truncated(Gross(line))
  }

  function TaxOn(amount: real, percent: real): real {
    Truncated(amount * percent / 100.0)
  }

  /** Each tax on `amount` is truncated on its own. */
  function TaxesOn(amount: real, percents: seq<real>): (t: real)
    ensures IsWholeCents(t)
  {
    if percents == [] then 0.0
    else
      var rest := TaxesOn(amount, percents[..|percents| - 1]);
      var last := TaxOn(amount, percents[|percents| - 1]);
      TruncatedIsWhole(amount * percents[|percents| - 1] / 100.0);
      WholeCentsAdd(rest, last);
      rest + last
  }

  function Percents(line: Line): seq<real> {
    [line.vatPercent] + line.otherTaxes
  }

  function LineTax(line: Line): real {
    TaxesOn(Net(line), Percents(line))
  }

  lemma TaxesOnNext(amount: real, percents: seq<real>, i: nat)
    requires i < |percents|
    ensures TaxesOn(amount, percents[..i + 1]) == TaxesOn(amount, percents[..i]) + TaxOn(amount, percents[i])
  {
    assert percents[..i + 1][..i] == percents[..i];
  }

  lemma FirstTax(line: Line, amount: real)
    ensures TaxesOn(amount, Percents(line)[..1]) == TaxOn(amount, line.vatPercent)
  {
    TaxesOnNext(amount, Percents(line), 0);
  }

  method TotalDiscounts(discounts: seq<real>) returns (total: real)
    ensures total == Sum(discounts)
  {
    total := 0.0;
    var i := 0;
    while i < |discounts|
      invariant i <= |discounts|
      invariant total == Sum(discounts[..i])
    {
      assert discounts[..i + 1][..i] == discounts[..i];
      total := total + discounts[i];
      i := i + 1;
    }
    assert discounts[..i] == discounts;
  }

  /** Adding one tax the way the invoice builder does. */
  method AddTax(total: real, amount: real, percent: real) returns (t: real)
    requires IsWholeCents(total)
    ensures t == total + TaxOn(amount, percent)
  {
    TruncatedIsWhole(amount * percent / 100.0);
    WholeStays(total);
    WholeCentsAdd(total, TaxOn(amount, percent));
    WholeStays(total + TaxOn(amount, percent));
    t := Truncated(total) + Truncated(amount * percent / 100.0);
    t := Truncated(t);
  }

  /** The amount of a line with its taxes, as `RoundingAmount` shows it. */
  method Inclusive(net: real, taxes: real) returns (t: real)
    requires IsWholeCents(net) && IsWholeCents(taxes)
    ensures t == net + taxes
  {
    WholeStays(net);
    WholeStays(taxes);
    WholeCentsAdd(net, taxes);
    WholeStays(net + taxes);
    t := Rounded(Truncated(net) + Truncated(taxes));
  }

  /** The line of a tax invoice or credit note: taxes are truncated again after every addition. */
  method BuildInvoiceLineItemTotals(line: Line) returns (t: LineTotals)
    ensures t.net == Net(line) && t.taxes == LineTax(line) && t.discounts == Sum(line.discounts)
    ensures t.taxAmount == t.taxes && t.roundingAmount == Some(t.net + t.taxes) && t.subtotal.None?
  {
    var totalDiscounts := TotalDiscounts(line.discounts);
    var lineSubtotal := line.price * line.quantity - totalDiscounts;
    assert lineSubtotal == Gross(line);
    lineSubtotal := Truncated(lineSubtotal);
    var totalTaxes := AddTax(0.0, lineSubtotal, line.vatPercent);
    var i := 0;
    FirstTax(line, lineSubtotal);
    while i < |line.otherTaxes|
      invariant i <= |line.otherTaxes|
      invariant totalTaxes == TaxesOn(lineSubtotal, Percents(line)[..i + 1])
    {
      TaxesOnNext(lineSubtotal, Percents(line), i + 1);
      totalTaxes := AddTax(totalTaxes, lineSubtotal, line.otherTaxes[i]);
      i := i + 1;
    }
    assert Percents(line)[..i + 1] == Percents(line);
    TruncatedIsWhole(Gross(line));
    var inclusive := Inclusive(lineSubtotal, totalTaxes);
    WholeStays(totalTaxes);
    t := LineTotals(lineSubtotal, totalTaxes, totalDiscounts, Truncated(totalTaxes), Some(inclusive), None);
  }

  /** The line of a debit note: taxes are truncated once, after the loop. */
  method BuildDebitNoteLineItemTotals(line: Line, withRoundingAmount: bool) returns (t: LineTotals)
    ensures t.net == Net(line) && t.taxes == LineTax(line) && t.discounts == Sum(line.discounts)
    ensures t.taxAmount == t.taxes
    ensures t.roundingAmount == if withRoundingAmount then Some(t.net + t.taxes) else None
    ensures t.subtotal == Some(Subtotal(t.net, TaxOn(t.net, line.vatPercent), line.vatPercent))
  {
    var totalDiscounts := TotalDiscounts(line.discounts);
    var lineSubtotal := line.price * line.quantity - totalDiscounts;
    assert lineSubtotal == Gross(line);
    lineSubtotal := Truncated(lineSubtotal);
    var totalTaxes := AddTax(0.0, lineSubtotal, line.vatPercent);
    var i := 0;
    FirstTax(line, lineSubtotal);
    while i < |line.otherTaxes|
      invariant i <= |line.otherTaxes|
      invariant totalTaxes == TaxesOn(lineSubtotal, Percents(line)[..i + 1])
    {
      TaxesOnNext(lineSubtotal, Percents(line), i + 1);
      var tax := TaxOn(lineSubtotal, line.otherTaxes[i]);
      totalTaxes := totalTaxes + tax;
      i := i + 1;
    }
    assert Percents(line)[..i + 1] == Percents(line);
    WholeStays(totalTaxes);
    totalTaxes := Truncated(totalTaxes);
    TruncatedIsWhole(Gross(line));
    var rounding := None;
    if withRoundingAmount {
      var inclusive := Inclusive(lineSubtotal, totalTaxes);
      rounding := Some(inclusive);
    }
    WholeStays(lineSubtotal);
    var subtotal := Subtotal(Truncated(lineSubtotal), TaxOn(lineSubtotal, line.vatPercent), line.vatPercent);
    t := LineTotals(lineSubtotal, totalTaxes, totalDiscounts, Truncated(totalTaxes), rounding, Some(subtotal));
  }

  // ---- Tax totals of a document ----------------------------------------------------------------

  datatype TaxTotal = TaxTotal(taxAmount: real, subtotals: seq<Subtotal>, rollUp: Option<real>)

  function SubtotalsOn(amount: real, percents: seq<real>): (s: seq<Subtotal>)
    ensures |s| == |percents|
  {
    if percents == [] then []
    else
      var p := percents[|percents| - 1];
      SubtotalsOn(amount, percents[..|percents| - 1]) + [Subtotal(Truncated(amount), TaxOn(amount, p), p)]
  }

  /** One subtotal for each line and tax, from the amount before truncation. */
  function Subtotals(lines: seq<Line>): seq<Subtotal> {
    if lines == [] then []
    else
      var last := lines[|lines| - 1];
      Subtotals(lines[..|lines| - 1]) + SubtotalsOn(Gross(last), Percents(last))
  }

  function DocumentTax(lines: seq<Line>): (t: real)
    ensures IsWholeCents(t)
  {
    if lines == [] then 0.0
    else
      var rest, last := DocumentTax(lines[..|lines| - 1]), lines[|lines| - 1];
      WholeCentsAdd(rest, TaxesOn(Gross(last), Percents(last)));
      rest + TaxesOn(Gross(last), Percents(last))
  }

  lemma SubtotalsOnNext(amount: real, percents: seq<real>, i: nat)
    requires i < |percents|
    ensures SubtotalsOn(amount, percents[..i + 1]) == SubtotalsOn(amount, percents[..i])
      + [Subtotal(Truncated(amount), TaxOn(amount, percents[i]), percents[i])]
  {
    assert percents[..i + 1][..i] == percents[..i];
  }

  lemma FirstSubtotal(line: Line, amount: real)
    ensures SubtotalsOn(amount, Percents(line)[..1])
      == [Subtotal(Truncated(amount), TaxOn(amount, line.vatPercent), line.vatPercent)]
  {
    SubtotalsOnNext(amount, Percents(line), 0);
  }

  /** The two nested loops that invoices and debit notes share. */
  method AddUpTaxes(lines: seq<Line>) returns (subtotals: seq<Subtotal>, totalTaxes: real)
    ensures subtotals == Subtotals(lines) && totalTaxes == DocumentTax(lines)
  {
    subtotals, totalTaxes := [], 0.0;
    var i := 0;
    while i < |lines|
      invariant i <= |lines|
      invariant subtotals == Subtotals(lines[..i]) && totalTaxes == DocumentTax(lines[..i])
    {
      assert lines[..i + 1][..i] == lines[..i];
      var lineSubtotals, lineTaxes := AddUpLine(lines[i]);
      subtotals := subtotals + lineSubtotals;
      totalTaxes := totalTaxes + lineTaxes;
      i := i + 1;
    }
    assert lines[..i] == lines;
  }

  method AddUpLine(line: Line) returns (subtotals: seq<Subtotal>, totalTaxes: real)
    ensures subtotals == SubtotalsOn(Gross(line), Percents(line))
    ensures totalTaxes == TaxesOn(Gross(line), Percents(line))
  {
    var lineDiscounts := TotalDiscounts(line.discounts);
    var taxableAmount := line.price * line.quantity - lineDiscounts;
    assert taxableAmount == Gross(line);
    var subtotal, tax := TaxLine(taxableAmount, line.vatPercent);
    subtotals, totalTaxes := [subtotal], tax;
    FirstTax(line, taxableAmount);
    FirstSubtotal(line, taxableAmount);
    var i := 0;
    while i < |line.otherTaxes|
      invariant i <= |line.otherTaxes|
      invariant subtotals == SubtotalsOn(taxableAmount, Percents(line)[..i + 1])
      invariant totalTaxes == TaxesOn(taxableAmount, Percents(line)[..i + 1])
    {
      TaxesOnNext(taxableAmount, Percents(line), i + 1);
      SubtotalsOnNext(taxableAmount, Percents(line), i + 1);
      subtotal, tax := TaxLine(taxableAmount, line.otherTaxes[i]);
      subtotals := subtotals + [subtotal];
      totalTaxes := totalTaxes + tax;
      i := i + 1;
    }
    assert Percents(line)[..i + 1] == Percents(line);
  }

  /** One call of `pushSubtotal`, and the tax it adds to the total. */
  method TaxLine(taxableAmount: real, percent: real) returns (subtotal: Subtotal, tax: real)
    ensures subtotal == Subtotal(Truncated(taxableAmount), TaxOn(taxableAmount, percent), percent)
    ensures tax == subtotal.taxAmount
  {
    var taxAmount := percent * taxableAmount / 100.0;
    assert taxAmount == taxableAmount * percent / 100.0;
    subtotal := Subtotal(Truncated(taxableAmount), Truncated(taxAmount), percent);
    tax := Truncated(taxAmount);
  }

  method BuildInvoiceTaxTotal(lines: seq<Line>) returns (t: TaxTotal)
    ensures t == TaxTotal(DocumentTax(lines), Subtotals(lines), Some(DocumentTax(lines)))
  {
    var subtotals, totalTaxes := AddUpTaxes(lines);
    WholeStays(totalTaxes);
    totalTaxes := Rounded(totalTaxes);
    t := TaxTotal(Truncated(totalTaxes), subtotals, Some(Truncated(totalTaxes)));
  }

  method BuildDebitNoteTaxTotal(lines: seq<Line>) returns (t: TaxTotal)
    ensures t == TaxTotal(DocumentTax(lines), Subtotals(lines), None)
  {
    var subtotals, totalTaxes := AddUpTaxes(lines);
    WholeStays(totalTaxes);
    t := TaxTotal(Truncated(totalTaxes), subtotals, None);
  }
}
