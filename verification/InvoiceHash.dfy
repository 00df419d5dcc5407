/**
 The part of an invoice that is hashed (packages/core/src/crypto/hash.ts) and what signing does to it
 (packages/core/src/crypto/sign.ts). Printing and parsing are taken to be inverse, so both work on parsed trees.
 */
module InvoiceHash {
  import opened Options
  import opened XmlTree
  import opened XmlLaws
  import opened InvoicePaths
  import D = XmlDocument

  // ---- What is hashed --------------------------------------------------------------------------

  const QR_REFERENCE: Condition := map["cbc:ID" := "QR"]

  function StripOne(root: Xml, tag: string, condition: Option<Condition>): Xml {
    Deleted(root, Below(tag), condition).0
  }

  /** The three deletions before hashing. */
  function Strip(root: Xml): Xml {
    StripOne(StripOne(StripOne(root, EXTENSIONS, None), SIGNATURE, None), REFERENCE, Some(QR_REFERENCE))
  }

  /** `getPureInvoiceString` up to canonicalisation: it works on a copy. */
  method StripCopy(invoice: D.XMLDocument) returns (copy: D.XMLDocument)
    ensures fresh(copy) && copy.xml_object == Strip(invoice.xml_object)
  {
    copy := new D.XMLDocument(invoice.xml_object);
    var _ := copy.Delete(Below(EXTENSIONS), None);
    var _ := copy.Delete(Below(SIGNATURE), None);
    var _ := copy.Delete(Below(REFERENCE), Some(QR_REFERENCE));
  }

  /** Parsed documents: keys are distinct, and an array holds at least one element and no arrays or named properties. */
  predicate IsParsed(x: Xml) {
    match x
    case Text(_) => true
    case Elem(es) => Distinct(es) && forall i :: 0 <= i < |es| ==> IsParsed(es[i].value)
    case Many(items, named) =>
      items != [] && named == [] && forall i :: 0 <= i < |items| ==> !items[i].Many? && IsParsed(items[i])
  }

  predicate Distinct(es: seq<Entry>) {
    forall i, j :: 0 <= i < j < |es| ==> es[i].tag != es[j].tag
  }

  /** What one deletion leaves of an entry of the invoice, and of all its entries. */
  function KeptEntry(e: Entry, tag: string, condition: Option<Condition>): seq<Entry> {
    var rest := Kept(Elements(e.value), condition);
    if e.tag != tag then [e]
    else if rest == [] then []
    else [Entry(e.tag, if e.value.Many? then Many(rest, []) else e.value)]
  }

  function KeptEntries(es: seq<Entry>, tag: string, condition: Option<Condition>): seq<Entry> {
    if es == [] then [] else KeptEntry(es[0], tag, condition) + KeptEntries(es[1..], tag, condition)
  }

  // ---- Stripping is a filter on the invoice's entries ------------------------------------------

  predicate IsTidyEntry(e: Entry) {
    e.value.Many? ==> e.value.items != [] && e.value.named == []
  }

  predicate IsTidy(es: seq<Entry>) {
    Distinct(es) && forall i :: 0 <= i < |es| ==> IsTidyEntry(es[i])
  }

  lemma {:induction false} KeptWithoutTag(es: seq<Entry>, tag: string, condition: Option<Condition>)
    requires Lookup(es, tag).None?
    ensures KeptEntries(es, tag, condition) == es == Remove(es, tag)
  {
    if es != [] {
      KeptWithoutTag(es[1..], tag, condition);
      assert [es[0]] + es[1..] == es;
    }
  }

  lemma {:induction false} NoLookup(es: seq<Entry>, tag: string)
    ensures Lookup(es, tag).None? <==> forall i :: 0 <= i < |es| ==> es[i].tag != tag
  {
    if es != [] {
      NoLookup(es[1..], tag);
      assert forall i :: 0 < i < |es| ==> es[i] == es[1..][i - 1];
    }
  }

  lemma {:induction false} NothingMatches(items: seq<Xml>, condition: Condition)
    requires Matching(items, condition) == []
    ensures NotMatching(items, condition) == items
  {
    if items != [] {
      NothingMatches(items[1..], condition);
      assert [items[0]] + items[1..] == items;
    }
  }

  /** The entries of the invoice after a deletion below it that finds `v`. */
  function Rest(es: seq<Entry>, tag: string, v: Xml, condition: Option<Condition>): seq<Entry> {
    var rest := Kept(Elements(v), condition);
    if rest == [] then Remove(es, tag) else Put(es, tag, if v.Many? then Many(rest, []) else v)
  }

  lemma {:induction false} RestIsKept(es: seq<Entry>, tag: string, condition: Option<Condition>)
    requires IsTidy(es) && Lookup(es, tag).Some?
    ensures Rest(es, tag, Lookup(es, tag).value, condition) == KeptEntries(es, tag, condition)
  {
    if es[0].tag == tag {
      NoLookup(es[1..], tag);
      KeptWithoutTag(es[1..], tag, condition);
    } else {
      RestIsKept(es[1..], tag, condition);
    }
  }

  function WithInvoice(root: Xml, es: seq<Entry>): Xml {
    WithEntries(root, Put(Entries(root), INVOICE, Elem(es)))
  }

  lemma {:induction false} PutSame(es: seq<Entry>, tag: string)
    requires Lookup(es, tag).Some?
    ensures Put(es, tag, Lookup(es, tag).value) == es
  {
    if es[0].tag != tag {
      PutSame(es[1..], tag);
    }
    assert [es[0]] + es[1..] == es;
  }

  /** The entries of the invoice, when the document has one. */
  function InvoiceOf(root: Xml): Option<Xml> {
    Lookup(Entries(root), INVOICE)
  }

  predicate HasInvoice(root: Xml) {
    InvoiceOf(root).Some? && InvoiceOf(root).value.Elem?
  }

  lemma RewriteBelow(root: Xml, tag: string, v: Option<Xml>)
    requires HasInvoice(root)
    ensures Rewrite(root, [INVOICE, tag], v) == WithInvoice(root,
      if v.Some? then Put(InvoiceOf(root).value.entries, tag, v.value) else Remove(InvoiceOf(root).value.entries, tag))
  {
    assert [INVOICE, tag][1..] == [tag];
  }

  lemma WalkBelow(root: Xml, tag: string)
    requires HasInvoice(root)
    ensures Walk(Some(root), [INVOICE, tag]) == Lookup(InvoiceOf(root).value.entries, tag)
  {
    var invoice := InvoiceOf(root);
    assert [INVOICE, tag][1..] == [tag];
    assert Walk(invoice, [tag]) == Walk(Lookup(Entries(invoice.value), tag), []);
  }

  lemma {:induction false} FoundIsTidy(es: seq<Entry>, tag: string)
    requires IsTidy(es) && Lookup(es, tag).Some? && Lookup(es, tag).value.Many?
    ensures Lookup(es, tag).value.items != [] && Lookup(es, tag).value.named == []
  {
    if es[0].tag != tag {
      FoundIsTidy(es[1..], tag);
    }
  }

  lemma DeletedIsRest(root: Xml, tag: string, condition: Option<Condition>)
    requires HasInvoice(root) && IsTidy(InvoiceOf(root).value.entries) && IsPlainTag(tag)
    requires Lookup(InvoiceOf(root).value.entries, tag).Some?
    ensures var es := InvoiceOf(root).value.entries;
      StripOne(root, tag, condition) == WithInvoice(root, Rest(es, tag, Lookup(es, tag).value, condition))
  {
    var path, es := Below(tag), InvoiceOf(root).value.entries;
    var v := Lookup(es, tag).value;
    BelowIsTwoTags(tag);
    GetElementWalksTags(Some(root), path);
    WalkBelow(root, tag);
    if v.Many? {
      FoundIsTidy(es, tag);
    }
    if Selected(Some(v), condition) == [] {
      NothingMatches(Elements(v), condition.value);
      PutSame(es, tag);
      PutSame(Entries(root), INVOICE);
    } else {
      var rest := Kept(Elements(v), condition);
      if condition.Some? && !v.Many? {
        OneElementKept(v, condition.value);
      }
      RewriteBelow(root, tag, if rest == [] then None else Some(Many(rest, [])));
    }
  }

  lemma StripOneIsFilter(root: Xml, tag: string, condition: Option<Condition>)
    requires HasInvoice(root) && IsTidy(InvoiceOf(root).value.entries) && IsPlainTag(tag)
    ensures StripOne(root, tag, condition)
      == WithInvoice(root, KeptEntries(InvoiceOf(root).value.entries, tag, condition))
  {
    var es := InvoiceOf(root).value.entries;
    if Lookup(es, tag).None? {
      BelowIsTwoTags(tag);
      GetElementWalksTags(Some(root), Below(tag));
      WalkBelow(root, tag);
      KeptWithoutTag(es, tag, condition);
      PutSame(Entries(root), INVOICE);
    } else {
      DeletedIsRest(root, tag, condition);
      RestIsKept(es, tag, condition);
    }
  }

  /** What all three deletions leave of the invoice's entries. */
  function Hashed(es: seq<Entry>): seq<Entry> {
    KeptEntries(KeptEntries(KeptEntries(es, EXTENSIONS, None), SIGNATURE, None), REFERENCE, Some(QR_REFERENCE))
  }

  lemma KeptEntryShape(e: Entry, tag: string, condition: Option<Condition>)
    ensures KeptEntry(e, tag, condition) == []
      || (KeptEntry(e, tag, condition) == [KeptEntry(e, tag, condition)[0]] &&
        KeptEntry(e, tag, condition)[0].tag == e.tag)
    ensures IsTidyEntry(e) && KeptEntry(e, tag, condition) != [] ==> IsTidyEntry(KeptEntry(e, tag, condition)[0])
  {
  }

  lemma {:induction false} KeptTags(es: seq<Entry>, tag: string, condition: Option<Condition>, other: string)
    requires Lookup(es, other).None?
    ensures Lookup(KeptEntries(es, tag, condition), other).None?
  {
    if es != [] {
      KeptTags(es[1..], tag, condition, other);
      KeptEntryShape(es[0], tag, condition);
      var head, rest := KeptEntry(es[0], tag, condition), KeptEntries(es[1..], tag, condition);
      if head == [] {
        assert head + rest == rest;
      } else {
        assert (head + rest)[1..] == rest;
      }
    }
  }

  lemma TidyCons(e: Entry, rest: seq<Entry>)
    ensures IsTidy([e] + rest) <==> IsTidy(rest) && IsTidyEntry(e) && Lookup(rest, e.tag).None?
  {
    NoLookup(rest, e.tag);
    var es := [e] + rest;
    assert es[0] == e && forall i :: 0 < i < |es| ==> es[i] == rest[i - 1];
    assert forall i :: 0 <= i < |rest| ==> rest[i] == es[i + 1];
  }

  lemma {:induction false} KeptIsTidy(es: seq<Entry>, tag: string, condition: Option<Condition>)
    requires IsTidy(es)
    ensures IsTidy(KeptEntries(es, tag, condition))
  {
    if es != [] {
      var head, rest := KeptEntry(es[0], tag, condition), KeptEntries(es[1..], tag, condition);
      assert [es[0]] + es[1..] == es;
      TidyCons(es[0], es[1..]);
      KeptIsTidy(es[1..], tag, condition);
      KeptTags(es[1..], tag, condition, es[0].tag);
      KeptEntryShape(es[0], tag, condition);
      if head == [] {
        assert head + rest == rest;
      } else {
        TidyCons(head[0], rest);
      }
    }
  }

  lemma WithInvoiceTwice(root: Xml, one: seq<Entry>, two: seq<Entry>)
    requires !root.Text?
    ensures InvoiceOf(WithInvoice(root, one)) == Some(Elem(one))
    ensures WithInvoice(WithInvoice(root, one), two) == WithInvoice(root, two)
  {
    LookupPut(Entries(root), INVOICE, Elem(one), INVOICE);
    PutTwice(Entries(root), INVOICE, Elem(one), Elem(two));
  }

  lemma {:induction false} PutTwice(es: seq<Entry>, tag: string, one: Xml, two: Xml)
    ensures Put(Put(es, tag, one), tag, two) == Put(es, tag, two)
  {
    if es != [] && es[0].tag != tag {
      PutTwice(es[1..], tag, one, two);
      assert Put(es, tag, one)[1..] == Put(es[1..], tag, one);
    }
  }

  /** Stripping filters the entries of the invoice and touches nothing else. */
  lemma StripIsFilter(root: Xml)
    requires HasInvoice(root) && IsTidy(InvoiceOf(root).value.entries)
    ensures Strip(root) == WithInvoice(root, Hashed(InvoiceOf(root).value.entries))
  {
    HashTagsArePlain();
    var es := InvoiceOf(root).value.entries;
    var one := KeptEntries(es, EXTENSIONS, None);
    var two := KeptEntries(one, SIGNATURE, None);
    StripOneIsFilter(root, EXTENSIONS, None);
    KeptIsTidy(es, EXTENSIONS, None);
    WithInvoiceTwice(root, one, two);
    StripOneIsFilter(WithInvoice(root, one), SIGNATURE, None);
    KeptIsTidy(one, SIGNATURE, None);
    WithInvoiceTwice(root, two, Hashed(es));
    StripOneIsFilter(WithInvoice(root, two), REFERENCE, Some(QR_REFERENCE));
  }

  lemma StripNeedsInvoice(root: Xml)
    requires !HasInvoice(root) && (InvoiceOf(root).Some? ==> Entries(InvoiceOf(root).value) == [])
    ensures Strip(root) == root
  {
    HashTagsArePlain();
    NothingToStrip(root, EXTENSIONS, None);
    NothingToStrip(root, SIGNATURE, None);
    NothingToStrip(root, REFERENCE, Some(QR_REFERENCE));
  }

  lemma NothingToStrip(root: Xml, tag: string, condition: Option<Condition>)
    requires InvoiceOf(root).Some? ==> Entries(InvoiceOf(root).value) == []
    requires IsPlainTag(tag)
    ensures StripOne(root, tag, condition) == root
  {
    BelowIsTwoTags(tag);
    GetElementWalksTags(Some(root), Below(tag));
    var invoice := InvoiceOf(root);
    assert [INVOICE, tag][1..] == [tag];
    if invoice.Some? {
      assert Walk(invoice, [tag]) == Walk(Lookup([], tag), []);
    }
  }
}
