/**
 The document wrapper (packages/core/src/xml/document.ts) as a class over the tree it holds, and the appends a
 builder makes to it (packages/core/src/invoices/base.ts).
 */
module XmlDocument {
  import opened Collections
  import opened Options
  import opened XmlTree
  import opened XmlLaws
  import opened InvoicePaths

  lemma MatchingNext(arr: seq<Xml>, i: nat, condition: Condition)
    requires i < |arr|
    ensures var matches, rest := Matching(arr[i + 1..], condition), NotMatching(arr[i + 1..], condition);
      if MatchesSubset(arr[i], condition)
      then Matching(arr[i..], condition) == [arr[i]] + matches && NotMatching(arr[i..], condition) == rest
      else Matching(arr[i..], condition) == matches && NotMatching(arr[i..], condition) == [arr[i]] + rest
  {
    assert arr[i..][1..] == arr[i + 1..];
  }

  /** `filterByMatchSubset` */
  method FilterByMatchSubset(arr: seq<Xml>, condition: Condition) returns (out: seq<Xml>)
    ensures out == Matching(arr, condition)
  {
    out := [];
    var i := 0;
    while i < |arr|
      invariant i <= |arr|
      invariant out + Matching(arr[i..], condition) == Matching(arr, condition)
    {
      MatchingNext(arr, i, condition);
      if MatchesSubset(arr[i], condition) {
        Assoc(out, [arr[i]], Matching(arr[i + 1..], condition));
        out := out + [arr[i]];
      }
      i := i + 1;
    }
  }

  /** The `filter` with which `delete` keeps the other elements. */
  method FilterOut(arr: seq<Xml>, condition: Condition) returns (out: seq<Xml>)
    ensures out == NotMatching(arr, condition)
  {
    out := [];
    var i := 0;
    while i < |arr|
      invariant i <= |arr|
      invariant out + NotMatching(arr[i..], condition) == NotMatching(arr, condition)
    {
      MatchingNext(arr, i, condition);
      if !MatchesSubset(arr[i], condition) {
        Assoc(out, [arr[i]], NotMatching(arr[i + 1..], condition));
        out := out + [arr[i]];
      }
      i := i + 1;
    }
  }

  class XMLDocument {
    var xml_object: Xml

    constructor (parsed: Xml)
      ensures xml_object == parsed
    {
      xml_object := parsed;
    }

    method Query(path: string, condition: Option<Condition>) returns (found: seq<Xml>)
      ensures found == Selected(GetElement(Some(xml_object), path), condition)
    {
      var target := GetElement(Some(xml_object), path);
      if target.None? {
        return [];
      }
      found := if target.value.Many? then target.value.items else [target.value];
      if condition.Some? {
        found := FilterByMatchSubset(found, condition.value);
      }
    }

    method Find(path: string, condition: Option<Condition>) returns (found: Option<seq<Xml>>)
      ensures found == Get(xml_object, path, condition)
    {
      var elements := Query(path, condition);
      found := if elements == [] then None else Some(elements);
    }

    method Delete(path: string, condition: Option<Condition>) returns (ok: bool)
      modifies this
      ensures (xml_object, ok) == Deleted(old(xml_object), path, condition)
      ensures !ok ==> xml_object == old(xml_object)
    {
      if IsForbidden(path) {
        return false;
      }
      var elements := Query(path, condition);
      if elements == [] {
        return false;
      }
      if Tags(path) != [] {
        var target := GetElement(Some(xml_object), path).value;
        if target.Many? && condition.Some? {
          var kept := FilterOut(target.items, condition.value);
          if kept == [] {
            xml_object := Rewrite(xml_object, Tags(path), None);
          } else {
            xml_object := Rewrite(xml_object, Tags(path), Some(Many(kept, [])));
          }
        } else {
          xml_object := Rewrite(xml_object, Tags(path), None);
        }
      }
      ok := true;
    }

    method Set(path: string, overwrite: bool, v: Xml) returns (ok: bool)
      modifies this
      ensures (xml_object, ok) == SetAt(old(xml_object), path, overwrite, v)
      ensures !ok ==> xml_object == old(xml_object)
    {
      if IsForbidden(path) {
        return false;
      }
      var branch := Walk(Some(xml_object), ParentTags(path));
      if IsEmpty(branch) || branch.value.Text? {
        return false;
      }
      var target := Target(path);
      var current := Walk(Some(xml_object), target);
      var written := v;
      if !overwrite && current.Some? {
        if current.value.Many? {
          written := Many(current.value.items + [v], []);
        } else {
          written := Many([current.value, v], []);
        }
      }
      xml_object := Rewrite(xml_object, target, Some(written));
      ok := true;
    }

    /** `for (const x of xs) doc.set(path, false, x)` */
    method AppendAll(path: string, vs: seq<Xml>)
      modifies this
      ensures xml_object == Appended(old(xml_object), path, vs)
    {
      var i := 0;
      while i < |vs|
        invariant i <= |vs|
        invariant xml_object == Appended(old(xml_object), path, vs[..i])
      {
        assert vs[..i + 1][..i] == vs[..i];
        var _ := Set(path, false, vs[i]);
        i := i + 1;
      }
      assert vs[..i] == vs;
    }
  }

  // ---- Filling in an invoice -------------------------------------------------------------------

  datatype Fill = Fill(payment: Option<Xml>, taxTotals: seq<Xml>, monetaryTotal: Xml, lines: seq<Xml>)

  function PaymentMeans(fill: Fill): seq<Xml> {
    if fill.payment.Some? then [fill.payment.value] else []
  }

  function Paid(root: Xml, fill: Fill): Xml {
    Appended(root, Below(PAYMENT_MEANS), PaymentMeans(fill))
  }

  function Taxed(root: Xml, fill: Fill): Xml {
    Appended(Paid(root, fill), Below(TAX_TOTAL), fill.taxTotals)
  }

  function Totalled(root: Xml, fill: Fill): Xml {
    SetAt(Taxed(root, fill), Below(MONETARY_TOTAL), true, fill.monetaryTotal).0
  }

  function Filled(root: Xml, fill: Fill): Xml {
    Appended(Totalled(root, fill), Below(INVOICE_LINE), fill.lines)
  }

  /** The builder's writes to the parsed template, in its order. */
  method FillInvoice(doc: XMLDocument, fill: Fill)
    modifies doc
    ensures doc.xml_object == Filled(old(doc.xml_object), fill)
  {
    if fill.payment.Some? {
      var _ := doc.Set(Below(PAYMENT_MEANS), false, fill.payment.value);
    }
    assert doc.xml_object == Appended(old(doc.xml_object), Below(PAYMENT_MEANS), PaymentMeans(fill)) by {
      if fill.payment.Some? {
        assert PaymentMeans(fill)[..0] == [];
      }
    }
    doc.AppendAll(Below(TAX_TOTAL), fill.taxTotals);
    var _ := doc.Set(Below(MONETARY_TOTAL), true, fill.monetaryTotal);
    doc.AppendAll(Below(INVOICE_LINE), fill.lines);
  }

  function At(root: Xml, tag: string): Option<Xml> {
    GetElement(Some(root), Below(tag))
  }

  /** `Invoice` can take new children. */
  predicate IsOpen(root: Xml) {
    var invoice := Walk(Some(root), [INVOICE]);
    !IsEmpty(invoice) && !invoice.value.Text?
  }

  lemma AppendBelow(root: Xml, tag: string, vs: seq<Xml>)
    requires IsPlainTag(tag) && IsOpen(root)
    requires forall i :: 0 <= i < |vs| ==> !vs[i].Many?
    ensures IsOpen(Appended(root, Below(tag), vs))
    ensures ElementsOf(At(Appended(root, Below(tag), vs), tag)) == ElementsOf(At(root, tag)) + vs
  {
    BelowIsTwoTags(tag);
    AppendsAccumulate(root, Below(tag), vs);
  }

  lemma AppendKeeps(root: Xml, tag: string, vs: seq<Xml>, other: string)
    requires IsPlainTag(tag) && IsPlainTag(other) && tag != other
    ensures At(Appended(root, Below(tag), vs), other) == At(root, other)
  {
    BelowIsTwoTags(tag);
    BelowIsTwoTags(other);
    assert Diverge([tag], [other]);
    AppendsLeaveOthersAlone(root, Below(tag), vs, Below(other));
  }

  lemma SetBelow(root: Xml, tag: string, v: Xml)
    requires IsPlainTag(tag) && IsOpen(root)
    ensures IsOpen(SetAt(root, Below(tag), true, v).0)
    ensures At(SetAt(root, Below(tag), true, v).0, tag) == Some(v)
  {
    BelowIsTwoTags(tag);
    StillSettable(root, Below(tag), true, v);
    SetThenGet(root, Below(tag), v);
  }

  lemma SetKeeps(root: Xml, tag: string, v: Xml, other: string)
    requires IsPlainTag(tag) && IsPlainTag(other) && tag != other
    ensures At(SetAt(root, Below(tag), true, v).0, other) == At(root, other)
  {
    BelowIsTwoTags(tag);
    BelowIsTwoTags(other);
    assert Diverge([tag], [other]);
    SetLeavesOthersAlone(root, Below(tag), true, v, Below(other));
  }

  lemma BuildTagsDiffer()
    ensures |PAYMENT_MEANS| == 16 && |TAX_TOTAL| == 12 && |MONETARY_TOTAL| == 22 && |INVOICE_LINE| == 15
  {
  }

  predicate AllSingle(fill: Fill) {
    && (forall x :: x in PaymentMeans(fill) + fill.taxTotals + fill.lines ==> !x.Many?)
    && !fill.monetaryTotal.Many?
  }

  /** Up to the monetary total. */
  lemma TotalledReadsBack(root: Xml, fill: Fill)
    requires IsOpen(root) && AllSingle(fill)
    ensures IsOpen(Totalled(root, fill))
    ensures ElementsOf(At(Totalled(root, fill), PAYMENT_MEANS)) ==
      ElementsOf(At(root, PAYMENT_MEANS)) + PaymentMeans(fill)
    ensures ElementsOf(At(Totalled(root, fill), TAX_TOTAL)) == ElementsOf(At(root, TAX_TOTAL)) + fill.taxTotals
    ensures At(Totalled(root, fill), MONETARY_TOTAL) == Some(fill.monetaryTotal)
  {
    BuildTagsArePlain();
    BuildTagsDiffer();
    AppendBelow(root, PAYMENT_MEANS, PaymentMeans(fill));
    AppendKeeps(root, PAYMENT_MEANS, PaymentMeans(fill), TAX_TOTAL);
    AppendBelow(Paid(root, fill), TAX_TOTAL, fill.taxTotals);
    AppendKeeps(Paid(root, fill), TAX_TOTAL, fill.taxTotals, PAYMENT_MEANS);
    SetBelow(Taxed(root, fill), MONETARY_TOTAL, fill.monetaryTotal);
    SetKeeps(Taxed(root, fill), MONETARY_TOTAL, fill.monetaryTotal, TAX_TOTAL);
    SetKeeps(Taxed(root, fill), MONETARY_TOTAL, fill.monetaryTotal, PAYMENT_MEANS);
  }

  lemma TotalledKeeps(root: Xml, fill: Fill, other: string)
    requires IsPlainTag(other) && other != TAX_TOTAL && other != PAYMENT_MEANS && other != MONETARY_TOTAL
    ensures At(Totalled(root, fill), other) == At(root, other)
  {
    BuildTagsArePlain();
    AppendKeeps(root, PAYMENT_MEANS, PaymentMeans(fill), other);
    AppendKeeps(Paid(root, fill), TAX_TOTAL, fill.taxTotals, other);
    SetKeeps(Taxed(root, fill), MONETARY_TOTAL, fill.monetaryTotal, other);
  }

  /**
   What a filled invoice reads back: one element per input, in input order and after any that were there before, and
   one monetary total.
   */
  lemma FilledReadsBack(root: Xml, fill: Fill)
    requires IsOpen(root) && AllSingle(fill)
    ensures ElementsOf(At(Filled(root, fill), INVOICE_LINE)) == ElementsOf(At(root, INVOICE_LINE)) + fill.lines
    ensures ElementsOf(At(Filled(root, fill), TAX_TOTAL)) == ElementsOf(At(root, TAX_TOTAL)) + fill.taxTotals
    ensures ElementsOf(At(Filled(root, fill), PAYMENT_MEANS)) ==
      ElementsOf(At(root, PAYMENT_MEANS)) + PaymentMeans(fill)
    ensures At(Filled(root, fill), MONETARY_TOTAL) == Some(fill.monetaryTotal)
  {
    BuildTagsArePlain();
    BuildTagsDiffer();
    TotalledReadsBack(root, fill);
    TotalledKeeps(root, fill, INVOICE_LINE);
    AppendBelow(Totalled(root, fill), INVOICE_LINE, fill.lines);
    AppendKeeps(Totalled(root, fill), INVOICE_LINE, fill.lines, TAX_TOTAL);
    AppendKeeps(Totalled(root, fill), INVOICE_LINE, fill.lines, PAYMENT_MEANS);
    AppendKeeps(Totalled(root, fill), INVOICE_LINE, fill.lines, MONETARY_TOTAL);
  }

  /** Every other element below `Invoice` stays as it was. */
  lemma FilledKeepsTheRest(root: Xml, fill: Fill, other: string)
    requires IsPlainTag(other) && other != INVOICE_LINE && other != TAX_TOTAL
    requires other != PAYMENT_MEANS && other != MONETARY_TOTAL
    ensures At(Filled(root, fill), other) == At(root, other)
  {
    BuildTagsArePlain();
    TotalledKeeps(root, fill, other);
    AppendKeeps(Totalled(root, fill), INVOICE_LINE, fill.lines, other);
  }

  lemma {:induction false} AppendsNeedParent(root: Xml, path: string, vs: seq<Xml>)
    requires !IsSettable(root, path)
    ensures Appended(root, path, vs) == root
    decreases |vs|
  {
    if vs != [] {
      AppendsNeedParent(root, path, vs[..|vs| - 1]);
    }
  }

  /** Without a usable `Invoice` element every write is refused, and the builder does not notice. */
  lemma FillNeedsInvoice(root: Xml, fill: Fill)
    requires !IsOpen(root)
    ensures Filled(root, fill) == root
  {
    BuildTagsArePlain();
    BelowIsTwoTags(PAYMENT_MEANS);
    BelowIsTwoTags(TAX_TOTAL);
    BelowIsTwoTags(MONETARY_TOTAL);
    BelowIsTwoTags(INVOICE_LINE);
    AppendsNeedParent(root, Below(PAYMENT_MEANS), PaymentMeans(fill));
    AppendsNeedParent(root, Below(TAX_TOTAL), fill.taxTotals);
    AppendsNeedParent(root, Below(INVOICE_LINE), fill.lines);
  }
}
