/**
 What the totals of a document conserve, and how far its two tax computations can drift apart
 (packages/core/src/invoices/base.ts:214-259).
 */
module TaxConservation {
  import opened Options
  import opened TaxArithmetic
  import opened TaxDue

  // ---- Monetary totals -------------------------------------------------------------------------

  datatype MonetaryTotal = MonetaryTotal(
    lineExtension: real, taxExclusive: real, taxInclusive: real, allowances: real, prepaid: real, payable: real)

  method BuildInvoiceLegalMonetaryTotal(totalSubtotal: real, totalTaxes: real) returns (m: MonetaryTotal)
    requires IsWholeCents(totalSubtotal) && IsWholeCents(totalTaxes)
    ensures m.lineExtension == m.taxExclusive == totalSubtotal
    ensures m.taxInclusive == m.payable == totalSubtotal + totalTaxes
    ensures m.allowances == m.prepaid == 0.0
  {
    WholeStays(totalSubtotal);
    WholeCentsAdd(totalSubtotal, totalTaxes);
    WholeStays(totalSubtotal + totalTaxes);
    m := MonetaryTotal(Truncated(totalSubtotal), Truncated(totalSubtotal),
      Rounded(totalSubtotal + totalTaxes), 0.0, 0.0, Rounded(totalSubtotal + totalTaxes));
  }

  method BuildDebitNoteLegalMonetaryTotal(totalSubtotal: real, totalTaxes: real) returns (m: MonetaryTotal)
    requires IsWholeCents(totalSubtotal) && IsWholeCents(totalTaxes)
    ensures m.lineExtension == m.taxExclusive == totalSubtotal
    ensures m.taxInclusive == m.payable == totalSubtotal + totalTaxes
    ensures m.allowances == m.prepaid == 0.0
  {
    var totalAmount := totalSubtotal + totalTaxes;
    WholeStays(totalSubtotal);
    WholeCentsAdd(totalSubtotal, totalTaxes);
    WholeStays(totalAmount);
    m := MonetaryTotal(Truncated(totalSubtotal), Truncated(totalSubtotal), Truncated(totalAmount), 0.0, 0.0,
      Truncated(totalAmount));
  }

  // ---- The document ----------------------------------------------------------------------------

  datatype Variant = TaxInvoice | SimplifiedDebitNote | StandardDebitNote

  datatype Document = Document(lines: seq<LineTotals>, taxTotal: TaxTotal, monetaryTotal: MonetaryTotal)

  function NetSum(lines: seq<LineTotals>): (r: real)
  {
    if lines == [] then 0.0 else NetSum(lines[..|lines| - 1]) + lines[|lines| - 1].net
  }

  function LineTaxSum(lines: seq<LineTotals>): (r: real)
  {
    if lines == [] then 0.0 else LineTaxSum(lines[..|lines| - 1]) + lines[|lines| - 1].taxes
  }

  function TaxSum(subtotals: seq<Subtotal>): real {
    if subtotals == [] then 0.0 else TaxSum(subtotals[..|subtotals| - 1]) + subtotals[|subtotals| - 1].taxAmount
  }

  method BuildLineItemTotals(variant: Variant, line: Line) returns (t: LineTotals)
    ensures t.net == Net(line) && t.taxes == LineTax(line) && t.taxAmount == t.taxes
    ensures t.roundingAmount == if variant.SimplifiedDebitNote? then None else Some(t.net + t.taxes)
  {
    match variant
    case TaxInvoice => t := BuildInvoiceLineItemTotals(line);
    case SimplifiedDebitNote => t := BuildDebitNoteLineItemTotals(line, false);
    case StandardDebitNote => t := BuildDebitNoteLineItemTotals(line, true);
  }

  /** The numbers of `BaseInvoiceBuilder.build`. */
  method Build(variant: Variant, lines: seq<Line>) returns (d: Document)
    ensures |d.lines| == |lines|
    ensures forall i :: 0 <= i < |lines| ==> d.lines[i].net == Net(lines[i]) && d.lines[i].taxes == LineTax(lines[i])
    // from prices, quantities, discounts and percentages alone
    ensures forall i :: 0 <= i < |lines| ==>
      IsCut(Amount(lines[i]), d.lines[i].net)
    ensures (forall i :: 0 <= i < |lines| ==> IsOrdinary(lines[i])) ==>
      0.0 <= DueTotal(lines) - d.monetaryTotal.payable <= ToleranceTotal(lines)
    ensures (forall i :: 0 <= i < |lines| ==> ComesOutEven(lines[i])) ==> d.monetaryTotal.payable == DueTotal(lines)
    ensures d.monetaryTotal.lineExtension == NetTotal(lines)
    // conservation
    ensures d.taxTotal.taxAmount == DocumentTax(lines) == TaxSum(d.taxTotal.subtotals)
    ensures d.taxTotal.subtotals == Subtotals(lines) && AreSubtotalsOf(d.taxTotal.subtotals, lines)
    ensures d.taxTotal.rollUp == if variant.TaxInvoice? then Some(d.taxTotal.taxAmount) else None
    ensures d.monetaryTotal.lineExtension == d.monetaryTotal.taxExclusive == NetSum(d.lines)
    ensures d.monetaryTotal.payable == d.monetaryTotal.taxInclusive == NetSum(d.lines) + LineTaxSum(d.lines)
    ensures TaxableSum(VatSubtotals(d.taxTotal.subtotals, lines)) == d.monetaryTotal.lineExtension
    ensures HavePercents(lines) ==>
      d.monetaryTotal.taxExclusive + d.taxTotal.taxAmount - d.monetaryTotal.taxInclusive
      == (AllCrossings(lines, false) - AllCrossings(lines, true)) as real
    ensures (forall i :: 0 <= i < |lines| ==> IsWholeCents(Gross(lines[i]))) ==>
      d.monetaryTotal.taxInclusive == d.monetaryTotal.taxExclusive + d.taxTotal.taxAmount
  {
    var totals, totalSubtotal, totalTaxes := AddUpLines(variant, lines);
    WholeStays(totalSubtotal);
    WholeStays(totalTaxes);
    totalSubtotal := Rounded(totalSubtotal);
    totalTaxes := Rounded(totalTaxes);
    var taxTotal, monetaryTotal;
    if variant.TaxInvoice? {
      taxTotal := BuildInvoiceTaxTotal(lines);
      monetaryTotal := BuildInvoiceLegalMonetaryTotal(totalSubtotal, totalTaxes);
    } else {
      taxTotal := BuildDebitNoteTaxTotal(lines);
      monetaryTotal := BuildDebitNoteLegalMonetaryTotal(totalSubtotal, totalTaxes);
    }
    SubtotalsAddUp(lines);
    VatTaxablesAddUp(lines, totals);
    LineTaxesOf(lines, totals);
    NetsOf(lines, totals);
    SubtotalsAreOf(lines);
    WhatIsPaid(lines);
    WhatDrifts(lines);
    d := Document(totals, taxTotal, monetaryTotal);
  }

  /** The loop over the lines, with its two running totals. */
  method AddUpLines(variant: Variant, lines: seq<Line>)
    returns (totals: seq<LineTotals>, totalSubtotal: real, totalTaxes: real)
    ensures |totals| == |lines|
    ensures forall i :: 0 <= i < |lines| ==> totals[i].net == Net(lines[i]) && totals[i].taxes == LineTax(lines[i])
    ensures totalSubtotal == NetSum(totals) && totalTaxes == LineTaxSum(totals)
    ensures IsWholeCents(totalSubtotal) && IsWholeCents(totalTaxes)
  {
    totals, totalSubtotal, totalTaxes := [], 0.0, 0.0;
    var i := 0;
    while i < |lines|
      invariant i <= |lines| && |totals| == i
      invariant forall j :: 0 <= j < i ==> totals[j].net == Net(lines[j]) && totals[j].taxes == LineTax(lines[j])
      invariant totalSubtotal == NetSum(totals) && totalTaxes == LineTaxSum(totals)
      invariant IsWholeCents(totalSubtotal) && IsWholeCents(totalTaxes)
    {
      var t := BuildLineItemTotals(variant, lines[i]);
      TruncatedIsWhole(Gross(lines[i]));
      WholeStays(t.net);
      WholeStays(t.taxes);
      WholeCentsAdd(totalSubtotal, t.net);
      WholeCentsAdd(totalTaxes, t.taxes);
      assert (totals + [t])[..i] == totals;
      totals := totals + [t];
      totalSubtotal := totalSubtotal + Truncated(t.net);
      totalTaxes := totalTaxes + Truncated(t.taxes);
      i := i + 1;
    }
  }

  // ---- Conservation ----------------------------------------------------------------------------

  lemma {:induction false} TaxSumAppend(one: seq<Subtotal>, two: seq<Subtotal>)
    ensures TaxSum(one + two) == TaxSum(one) + TaxSum(two)
  {
    if two == [] {
      assert one + two == one;
    } else {
      assert (one + two)[..|one + two| - 1] == one + two[..|two| - 1];
      TaxSumAppend(one, two[..|two| - 1]);
    }
  }

  lemma {:induction false} SubtotalsOnAddUp(amount: real, percents: seq<real>)
    ensures TaxSum(SubtotalsOn(amount, percents)) == TaxesOn(amount, percents)
  {
    if percents != [] {
      var all, init := SubtotalsOn(amount, percents), SubtotalsOn(amount, percents[..|percents| - 1]);
      SubtotalsOnAddUp(amount, percents[..|percents| - 1]);
      assert all[..|all| - 1] == init;
    }
  }

  /** The tax amounts of the subtotals add up to the tax of the document. */
  lemma {:induction false} SubtotalsAddUp(lines: seq<Line>)
    ensures TaxSum(Subtotals(lines)) == DocumentTax(lines)
  {
    if lines != [] {
      var init, last := lines[..|lines| - 1], lines[|lines| - 1];
      SubtotalsAddUp(init);
      TaxSumAppend(Subtotals(init), SubtotalsOn(Gross(last), Percents(last)));
      SubtotalsOnAddUp(Gross(last), Percents(last));
    }
  }

  /** The VAT subtotal of each line: the first of its group. */
  function VatSubtotals(subtotals: seq<Subtotal>, lines: seq<Line>): (s: seq<Subtotal>)
    requires |subtotals| == |Subtotals(lines)|
    ensures |s| == |lines|
  {
    if lines == [] then []
    else
      var init := lines[..|lines| - 1];
      var n := |Subtotals(init)|;
      VatSubtotals(subtotals[..n], init) + [subtotals[n]]
  }

  function TaxableSum(subtotals: seq<Subtotal>): real {
    if subtotals == [] then 0.0
    else TaxableSum(subtotals[..|subtotals| - 1]) + subtotals[|subtotals| - 1].taxableAmount
  }

  lemma {:induction false} FirstSubtotalOf(amount: real, percents: seq<real>)
    requires percents != []
    ensures SubtotalsOn(amount, percents)[0] == Subtotal(Truncated(amount), TaxOn(amount, percents[0]), percents[0])
  {
    if |percents| > 1 {
      FirstSubtotalOf(amount, percents[..|percents| - 1]);
    }
  }

  /** The VAT taxable amounts, read from the subtotals, add up to the line extension amount. */
  lemma {:induction false} VatTaxablesAddUp(lines: seq<Line>, totals: seq<LineTotals>)
    requires |totals| == |lines| && forall i :: 0 <= i < |lines| ==> totals[i].net == Net(lines[i])
    ensures TaxableSum(VatSubtotals(Subtotals(lines), lines)) == NetSum(totals)
  {
    if lines != [] {
      var init, last := lines[..|lines| - 1], lines[|lines| - 1];
      VatTaxablesAddUp(init, totals[..|lines| - 1]);
      FirstSubtotalOf(Gross(last), Percents(last));
      var n := |Subtotals(init)|;
      assert Subtotals(lines)[..n] == Subtotals(init);
      var vats := VatSubtotals(Subtotals(lines), lines);
      assert vats[..|vats| - 1] == VatSubtotals(Subtotals(init), init);
    }
  }

  // ---- What is to be paid ----------------------------------------------------------------------

  lemma {:induction false} NetsOf(lines: seq<Line>, totals: seq<LineTotals>)
    requires |totals| == |lines| && forall i :: 0 <= i < |lines| ==> totals[i].net == Net(lines[i])
    ensures NetSum(totals) == NetTotal(lines)
    ensures forall i :: 0 <= i < |lines| ==> IsCut(Amount(lines[i]), totals[i].net)
  {
    if lines != [] {
      NetsOf(lines[..|lines| - 1], totals[..|lines| - 1]);
      NetIsCut(lines[|lines| - 1]);
    }
  }

  lemma WhatIsPaid(lines: seq<Line>)
    ensures (forall i :: 0 <= i < |lines| ==> IsOrdinary(lines[i])) ==>
      0.0 <= DueTotal(lines) - (NetTotal(lines) + LineTaxTotal(lines)) <= ToleranceTotal(lines)
    ensures (forall i :: 0 <= i < |lines| ==> ComesOutEven(lines[i])) ==>
      DueTotal(lines) == NetTotal(lines) + LineTaxTotal(lines)
  {
    if forall i :: 0 <= i < |lines| ==> IsOrdinary(lines[i]) {
      PaidWithinTolerance(lines);
    }
    if forall i :: 0 <= i < |lines| ==> ComesOutEven(lines[i]) {
      PaidInFull(lines);
    }
  }

  // ---- The two tax computations ----------------------------------------------------------------

  function Abs(x: real): real {
    if x < 0.0 then -x else x
  }

  /** The part of a cent that truncation drops. */
  function Fraction(x: real): real
    requires x >= 0.0
  {
    x - x.Floor as real
  }

  /** Adding `share` to `own` reaches the next whole cent. */
  predicate ReachesCent(own: real, share: real)
    requires own >= 0.0
  {
    Fraction(own) + share >= 1.0
  }

  /** The untruncated tax of an amount without its sign. */
  function RawTax(amount: real, percent: real): (t: real)
    requires amount >= 0.0 && percent >= 0.0
    ensures t >= 0.0
  {
    ProductSign(amount, percent);
    amount * percent / 100.0
  }

  /**
   The tax on the part of a cent that the line drops, added to the part of a cent of the line's own tax, makes a
   whole cent.
   */
  predicate Crosses(amount: real, percent: real)
    requires percent >= 0.0
  {
    var net := Truncated(Abs(amount));
    ReachesCent(RawTax(net, percent), RawTax(Abs(amount) - net, percent))
  }

  lemma ShareBelowOne(rest: real, percent: real)
    requires 0.0 <= rest < 1.0 && 0.0 <= percent <= 100.0
    ensures 0.0 <= RawTax(rest, percent) < 1.0
  {
    assert rest * percent <= rest * 100.0;
  }

  lemma ProductSign(x: real, percent: real)
    requires percent >= 0.0
    ensures x >= 0.0 ==> x * percent / 100.0 >= 0.0
    ensures x <= 0.0 ==> x * percent / 100.0 <= 0.0
  {
    if x <= 0.0 {
      assert (-x) * percent >= 0.0;
    }
  }

  lemma TruncatedSum(own: real, share: real)
    requires 0.0 <= own && 0.0 <= share < 1.0
    ensures Truncated(own + share) - Truncated(own) == if ReachesCent(own, share) then 1.0 else 0.0
  {
    FloorIs(own + share, own.Floor + if ReachesCent(own, share) then 1 else 0);
  }

  lemma RawTaxAdds(net: real, rest: real, percent: real)
    requires net >= 0.0 && rest >= 0.0 && percent >= 0.0
    ensures RawTax(net + rest, percent) == RawTax(net, percent) + RawTax(rest, percent)
  {
  }

  lemma TaxIsTruncated(amount: real, percent: real)
    requires amount >= 0.0 && percent >= 0.0
    ensures TaxOn(amount, percent) == Truncated(RawTax(amount, percent))
  {
  }

  lemma DriftOfSum(tax: real, netTax: real, own: real, share: real)
    requires 0.0 <= own && 0.0 <= share < 1.0 && tax == Truncated(own + share) && netTax == Truncated(own)
    ensures tax - netTax == if ReachesCent(own, share) then 1.0 else 0.0
  {
    TruncatedSum(own, share);
  }

  lemma PositiveTaxDrift(amount: real, percent: real)
    requires amount >= 0.0 && 0.0 <= percent <= 100.0
    ensures TaxOn(amount, percent) - TaxOn(Truncated(amount), percent) == if Crosses(amount, percent) then 1.0 else 0.0
  {
    var net := Truncated(amount);
    ShareBelowOne(amount - net, percent);
    RawTaxAdds(net, amount - net, percent);
    TaxIsTruncated(amount, percent);
    TaxIsTruncated(net, percent);
    DriftOfSum(TaxOn(amount, percent), TaxOn(net, percent), RawTax(net, percent), RawTax(amount - net, percent));
  }

  lemma TaxOnNegated(amount: real, percent: real)
    ensures TaxOn(-amount, percent) == -TaxOn(amount, percent)
  {
    assert (-amount) * percent / 100.0 == -(amount * percent / 100.0);
  }

  lemma CrossesNegated(amount: real, percent: real)
    requires percent >= 0.0
    ensures Crosses(-amount, percent) == Crosses(amount, percent) && Truncated(-amount) == -Truncated(amount)
  {
  }

  /** Truncating the amount first changes one tax by one cent toward zero if the pair crosses, and not otherwise. */
  lemma OneTaxDrift(amount: real, percent: real)
    requires 0.0 <= percent <= 100.0
    ensures TaxOn(amount, percent) - TaxOn(Truncated(amount), percent)
      == if !Crosses(amount, percent) then 0.0 else if amount < 0.0 then -1.0 else 1.0
  {
    if amount >= 0.0 {
      PositiveTaxDrift(amount, percent);
    } else {
      PositiveTaxDrift(-amount, percent);
      CrossesNegated(amount, percent);
      TaxOnNegated(amount, percent);
      TaxOnNegated(Truncated(amount), percent);
    }
  }

  predicate ArePercents(percents: seq<real>) {
    forall i :: 0 <= i < |percents| ==> 0.0 <= percents[i] <= 100.0
  }

  /** How many taxes of a line cross. */
  function Crossings(amount: real, percents: seq<real>): (n: nat)
    requires ArePercents(percents)
    ensures n <= |percents|
  {
    if percents == [] then 0
    else
      Crossings(amount, percents[..|percents| - 1])
      + if Crosses(amount, percents[|percents| - 1]) then 1 else 0
  }

  lemma {:induction false} LineDrift(amount: real, percents: seq<real>)
    requires ArePercents(percents)
    ensures TaxesOn(amount, percents) - TaxesOn(Truncated(amount), percents)
      == if amount < 0.0 then -(Crossings(amount, percents) as real) else Crossings(amount, percents) as real
  {
    if percents != [] {
      LineDrift(amount, percents[..|percents| - 1]);
      OneTaxDrift(amount, percents[|percents| - 1]);
    }
  }

  predicate HavePercents(lines: seq<Line>) {
    forall i :: 0 <= i < |lines| ==> ArePercents(Percents(lines[i]))
  }

  /** How many (line, tax) pairs cross, among the lines with a negative amount or among the others. */
  function AllCrossings(lines: seq<Line>, negative: bool): (n: nat)
    requires HavePercents(lines)
    ensures n <= Pairs(lines, negative)
  {
    if lines == [] then 0
    else
      var last := lines[|lines| - 1];
      AllCrossings(lines[..|lines| - 1], negative)
      + if (Gross(last) < 0.0) == negative then Crossings(Gross(last), Percents(last)) else 0
  }

  /** How many taxes the lines with a negative amount have, or the lines with any other amount. */
  function Pairs(lines: seq<Line>, negative: bool): nat {
    if lines == [] then 0
    else
      var last := lines[|lines| - 1];
      Pairs(lines[..|lines| - 1], negative) + if (Gross(last) < 0.0) == negative then |Percents(last)| else 0
  }

  /**
   Main result: the document's tax exceeds the sum of the lines' taxes by exactly one cent for each crossing pair
   with an amount that is not negative, less one cent for each other one.
   */
  lemma {:induction false} TaxDrift(lines: seq<Line>)
    requires HavePercents(lines)
    ensures DocumentTax(lines) - LineTaxTotal(lines)
      == (AllCrossings(lines, false) - AllCrossings(lines, true)) as real
    ensures -(Pairs(lines, true) as real) <= DocumentTax(lines) - LineTaxTotal(lines) <= Pairs(lines, false) as real
  {
    if lines != [] {
      TaxDrift(lines[..|lines| - 1]);
      LineDrift(Gross(lines[|lines| - 1]), Percents(lines[|lines| - 1]));
    }
  }

  /** So the two computations agree exactly when the crossings of either sign balance. */
  lemma TaxesAgreeIff(lines: seq<Line>)
    requires HavePercents(lines)
    ensures DocumentTax(lines) == LineTaxTotal(lines) <==> AllCrossings(lines, false) == AllCrossings(lines, true)
  {
    TaxDrift(lines);
  }

  /** With no part of a cent in any line, whatever the percentages, the two agree. */
  lemma {:induction false} NoDriftInWholeCents(lines: seq<Line>)
    requires forall i :: 0 <= i < |lines| ==> IsWholeCents(Gross(lines[i]))
    ensures DocumentTax(lines) == LineTaxTotal(lines)
  {
    if lines != [] {
      NoDriftInWholeCents(lines[..|lines| - 1]);
      WholeStays(Gross(lines[|lines| - 1]));
    }
  }

  lemma WhatDrifts(lines: seq<Line>)
    ensures HavePercents(lines) ==>
      DocumentTax(lines) - LineTaxTotal(lines) == (AllCrossings(lines, false) - AllCrossings(lines, true)) as real
    ensures (forall i :: 0 <= i < |lines| ==> IsWholeCents(Gross(lines[i]))) ==>
      DocumentTax(lines) == LineTaxTotal(lines)
  {
    if HavePercents(lines) {
      TaxDrift(lines);
    }
    if forall i :: 0 <= i < |lines| ==> IsWholeCents(Gross(lines[i])) {
      NoDriftInWholeCents(lines);
    }
  }

  /** 33.339 at 15%: 5.00 of tax for the document, 4.99 for the line. */
  const DRIFTING_LINE := Line(3333.9, 1.0, [], 15.0, [])

  lemma DriftingLine()
    ensures Gross(DRIFTING_LINE) == 3333.9 && Percents(DRIFTING_LINE) == [15.0]
    ensures TaxesOn(Gross(DRIFTING_LINE), [15.0]) == 500.0 && LineTax(DRIFTING_LINE) == 499.0
  {
    FloorIs(3333.9, 3333);
    FloorIs(500.085, 500);
    FloorIs(499.95, 499);
    assert [15.0][..0] == [];
  }

  /** The bound is reached, for every number of lines. */
  lemma {:induction false} DriftIsReached(n: nat)
    ensures var lines := seq(n, _ => DRIFTING_LINE);
      Pairs(lines, false) == n && DocumentTax(lines) - LineTaxTotal(lines) == n as real
  {
    if n > 0 {
      var lines := seq(n, _ => DRIFTING_LINE);
      assert lines[..n - 1] == seq(n - 1, _ => DRIFTING_LINE);
      DriftIsReached(n - 1);
      DriftingLine();
    }
  }

  lemma {:induction false} LineTaxesOf(lines: seq<Line>, totals: seq<LineTotals>)
    requires |totals| == |lines| && forall i :: 0 <= i < |lines| ==> totals[i].taxes == LineTax(lines[i])
    ensures LineTaxSum(totals) == LineTaxTotal(lines)
  {
    if lines != [] {
      LineTaxesOf(lines[..|lines| - 1], totals[..|lines| - 1]);
    }
  }
}
