/**
 Building, hashing and signing together (packages/core/src/invoices/base.ts:238-259,
 packages/core/src/crypto/sign.ts:287-363): what the builder writes brings no placeholder into the part that is hashed,
 so that every built invoice hashes alike before and after it is signed.
 */
module BuiltInvoice {
  import opened Options
  import opened XmlTree
  import opened XmlLaws
  import opened InvoicePaths
  import opened InvoiceHash
  import opened Signing
  import D = XmlDocument

  /** A tag of which every element is hashed. */
  predicate IsHashedTag(tag: string) {
    IsPlainTag(tag) && tag != EXTENSIONS && tag != SIGNATURE && tag != REFERENCE
  }

  predicate HoldsPlaceholder(x: Xml) {
    Holds(x, EXTENSIONS_TOKEN) || Holds(x, QR_TOKEN)
  }

  /** A value the builder may write. */
  predicate IsClean(v: Xml) {
    !v.Many? && IsParsed(v) && !HoldsPlaceholder(v)
  }

  /** A parsed document with an invoice, whose placeholders are in the parts that are not hashed. */
  predicate IsSignable(root: Xml) {
    root.Elem? && IsParsed(root) && HasInvoice(root) && !HoldsPlaceholder(Strip(root))
  }

  // ---- One write -------------------------------------------------------------------------------

  /** A write below the invoice rewrites its entries, unless there are none. */
  lemma SetIsPut(root: Xml, tag: string, overwrite: bool, v: Xml)
    requires HasInvoice(root) && IsPlainTag(tag)
    ensures var es := InvoiceOf(root).value.entries;
      SetAt(root, Below(tag), overwrite, v).0
      == if es == [] then root else WithInvoice(root, Put(es, tag, NewValue(Lookup(es, tag), overwrite, v)))
  {
    var es := InvoiceOf(root).value.entries;
    BelowIsTwoTags(tag);
    assert [INVOICE][1..] == [] && [INVOICE] + [tag] == [INVOICE, tag];
    assert Walk(Some(root), [INVOICE]) == Walk(InvoiceOf(root), []);
    WalkBelow(root, tag);
    RewriteBelow(root, tag, Some(NewValue(Lookup(es, tag), overwrite, v)));
  }

  lemma {:induction false} PutIsParsed(es: seq<Entry>, tag: string, v: Xml)
    requires IsParsed(Elem(es)) && IsParsed(v)
    ensures IsParsed(Elem(Put(es, tag, v)))
  {
    if es != [] {
      ParsedCons(es[0], es[1..]);
      assert [es[0]] + es[1..] == es;
      if es[0].tag == tag {
        ParsedCons(Entry(tag, v), es[1..]);
      } else {
        PutIsParsed(es[1..], tag, v);
        LookupPut(es[1..], tag, v, es[0].tag);
        ParsedCons(es[0], Put(es[1..], tag, v));
      }
    }
  }

  lemma ParsedCons(e: Entry, rest: seq<Entry>)
    ensures IsParsed(Elem([e] + rest)) <==> IsParsed(Elem(rest)) && IsParsed(e.value) && Lookup(rest, e.tag).None?
  {
    NoLookup(rest, e.tag);
    var es := [e] + rest;
    assert es[0] == e && forall i :: 0 < i < |es| ==> es[i] == rest[i - 1];
    assert forall i :: 0 <= i < |rest| ==> rest[i] == es[i + 1];
  }

  lemma {:induction false} PutStaysClean(es: seq<Entry>, tag: string, v: Xml, token: string)
    requires !HoldsEntries(es, token) && !Holds(v, token)
    ensures !HoldsEntries(Put(es, tag, v), token)
  {
    if es != [] && es[0].tag != tag {
      PutStaysClean(es[1..], tag, v, token);
    }
  }

  /** What is hashed of the invoice after a write is what was hashed before, after the same write. */
  lemma {:induction false} HashedAfterPut(es: seq<Entry>, tag: string, v: Xml)
    requires IsHashedTag(tag)
    ensures Hashed(Put(es, tag, v)) == Put(Hashed(es), tag, v)
  {
    if es == [] {
      HashedCons(Entry(tag, v), []);
      assert [Entry(tag, v)] + [] == [Entry(tag, v)];
    } else {
      var rest := es[1..];
      assert [es[0]] + rest == es;
      HashedCons(es[0], rest);
      if es[0].tag == tag {
        HashedCons(Entry(tag, v), rest);
        assert ([es[0]] + Hashed(rest))[1..] == Hashed(rest);
      } else {
        HashedAfterPut(rest, tag, v);
        HashedCons(es[0], Put(rest, tag, v));
        KeptEntryShape(es[0], REFERENCE, Some(QR_REFERENCE));
        PutBehind(HashedEntry(es[0]), Hashed(rest), tag, v);
      }
    }
  }

  lemma PutBehind(head: seq<Entry>, rest: seq<Entry>, tag: string, v: Xml)
    requires head == [] || (|head| == 1 && head[0].tag != tag)
    ensures Put(head + rest, tag, v) == head + Put(rest, tag, v)
  {
    if head == [] {
      assert head + rest == rest;
    } else {
      assert (head + rest)[1..] == rest;
    }
  }

  lemma {:induction false} ItemsStayClean(items: seq<Xml>, v: Xml, token: string)
    requires !HoldsItems(items, token) && !Holds(v, token)
    ensures !HoldsItems(items + [v], token)
  {
    if items != [] {
      assert (items + [v])[1..] == items[1..] + [v];
      ItemsStayClean(items[1..], v, token);
    }
  }

  lemma NewValueStaysClean(current: Option<Xml>, overwrite: bool, v: Xml, token: string)
    requires !Holds(v, token) && (current.Some? ==> !Holds(current.value, token))
    ensures !Holds(NewValue(current, overwrite, v), token)
  {
    if !overwrite && current.Some? {
      if current.value.Many? {
        ItemsStayClean(current.value.items, v, token);
      } else {
        assert [current.value, v][1..] == [v] && [v][1..] == [];
        assert !HoldsItems([v], token) && !HoldsItems([current.value, v], token);
      }
    }
  }

  lemma NewValueIsParsed(current: Option<Xml>, overwrite: bool, v: Xml)
    requires !v.Many? && IsParsed(v) && (current.Some? ==> IsParsed(current.value))
    ensures IsParsed(NewValue(current, overwrite, v))
  {
  }

  /** The value under a hashed tag can be seen in what is hashed. */
  lemma CurrentIsClean(root: Xml, tag: string, token: string)
    requires root.Elem? && IsParsed(root) && HasInvoice(root) && !Holds(Strip(root), token) && IsHashedTag(tag)
    ensures var es := InvoiceOf(root).value.entries;
      !HoldsEntries(Hashed(es), token) && (Lookup(es, tag).Some? ==> !Holds(Lookup(es, tag).value, token))
  {
    var es := InvoiceOf(root).value.entries;
    ParsedIsTidy(root);
    StripParsed(root);
    StripSeenFrom(root, INVOICE);
    if HoldsEntries(Hashed(es), token) {
      FoundHolds(Entries(Strip(root)), INVOICE, token);
    }
    if Lookup(es, tag).Some? && Holds(Lookup(es, tag).value, token) {
      LookupHashed(es, tag);
      FoundHolds(Hashed(es), tag, token);
    }
  }

  lemma WriteStaysClean(root: Xml, tag: string, overwrite: bool, v: Xml, token: string)
    requires root.Elem? && IsParsed(root) && HasInvoice(root) && !Holds(Strip(root), token) && IsHashedTag(tag)
    requires !Holds(v, token) && IsParsed(SetAt(root, Below(tag), overwrite, v).0)
    ensures !Holds(Strip(SetAt(root, Below(tag), overwrite, v).0), token)
  {
    var es, after := InvoiceOf(root).value.entries, SetAt(root, Below(tag), overwrite, v).0;
    SetIsPut(root, tag, overwrite, v);
    if es != [] {
      var written := NewValue(Lookup(es, tag), overwrite, v);
      CurrentIsClean(root, tag, token);
      NewValueStaysClean(Lookup(es, tag), overwrite, v, token);
      PutStaysClean(Hashed(es), tag, written, token);
      HashedAfterPut(es, tag, written);
      WithInvoiceTwice(root, Put(es, tag, written), Hashed(Put(es, tag, written)));
      StripParsed(root);
      StripParsed(after);
      WithInvoiceTwice(root, Hashed(es), Hashed(Put(es, tag, written)));
      PutStaysClean(Entries(Strip(root)), INVOICE, Elem(Hashed(Put(es, tag, written))), token);
    }
  }

  lemma WriteKeepsSignable(root: Xml, tag: string, overwrite: bool, v: Xml)
    requires IsSignable(root) && IsHashedTag(tag) && IsClean(v)
    ensures IsSignable(SetAt(root, Below(tag), overwrite, v).0)
  {
    var es := InvoiceOf(root).value.entries;
    SetIsPut(root, tag, overwrite, v);
    if es != [] {
      var written := NewValue(Lookup(es, tag), overwrite, v);
      FoundIsParsed(root.entries, INVOICE);
      if Lookup(es, tag).Some? {
        FoundIsParsed(es, tag);
      }
      NewValueIsParsed(Lookup(es, tag), overwrite, v);
      PutIsParsed(es, tag, written);
      PutIsParsed(root.entries, INVOICE, Elem(Put(es, tag, written)));
      WithInvoiceTwice(root, Put(es, tag, written), []);
    }
    WriteStaysClean(root, tag, overwrite, v, EXTENSIONS_TOKEN);
    WriteStaysClean(root, tag, overwrite, v, QR_TOKEN);
  }

  // ---- The whole build -------------------------------------------------------------------------

  lemma {:induction false} AppendsKeepSignable(root: Xml, tag: string, vs: seq<Xml>)
    requires IsSignable(root) && IsHashedTag(tag) && forall i :: 0 <= i < |vs| ==> IsClean(vs[i])
    ensures IsSignable(Appended(root, Below(tag), vs))
    decreases |vs|
  {
    if vs != [] {
      var init := vs[..|vs| - 1];
      AppendsKeepSignable(root, tag, init);
      WriteKeepsSignable(Appended(root, Below(tag), init), tag, false, vs[|vs| - 1]);
    }
  }

  predicate IsCleanFill(fill: D.Fill) {
    && (fill.payment.Some? ==> IsClean(fill.payment.value))
    && (forall i :: 0 <= i < |fill.taxTotals| ==> IsClean(fill.taxTotals[i]))
    && IsClean(fill.monetaryTotal)
    && (forall i :: 0 <= i < |fill.lines| ==> IsClean(fill.lines[i]))
  }

  lemma BuildTagsAreHashed()
    ensures IsHashedTag(PAYMENT_MEANS) && IsHashedTag(TAX_TOTAL)
    ensures IsHashedTag(MONETARY_TOTAL) && IsHashedTag(INVOICE_LINE)
  {
    BuildTagsArePlain();
    D.BuildTagsDiffer();
    HashTagsDiffer();
  }

  lemma BuiltIsSignable(root: Xml, fill: D.Fill)
    requires IsSignable(root) && IsCleanFill(fill)
    ensures IsSignable(D.Filled(root, fill))
  {
    BuildTagsAreHashed();
    AppendsKeepSignable(root, PAYMENT_MEANS, D.PaymentMeans(fill));
    AppendsKeepSignable(D.Paid(root, fill), TAX_TOTAL, fill.taxTotals);
    WriteKeepsSignable(D.Taxed(root, fill), MONETARY_TOTAL, true, fill.monetaryTotal);
    AppendsKeepSignable(D.Totalled(root, fill), INVOICE_LINE, fill.lines);
  }

  /**
   Main result: a template whose placeholders are outside what is hashed, filled with values that hold none, hashes
   alike before and after signing, whatever the signature block and the QR code are.
   */
  lemma BuiltInvoiceKeepsHash(root: Xml, fill: D.Fill, block: string -> Xml, qr: string -> Xml)
    requires IsSignable(root) && IsCleanFill(fill) && IsContent(block) && IsContent(qr)
    ensures Strip(Signed(D.Filled(root, fill), block, qr)) == Strip(D.Filled(root, fill))
  {
    BuiltIsSignable(root, fill);
    SigningKeepsHashed(D.Filled(root, fill), block, qr);
  }

  // ---- What is hashed --------------------------------------------------------------------------

  /** An element matches {tag: text} exactly when its own value at the tag is that text. */
  lemma MatchesOneIff(x: Xml, tag: string, text: string)
    ensures MatchesSubset(x, map[tag := text]) <==> !x.Text? && Lookup(Entries(x), tag) == Some(Text(text))
  {
    assert tag in map[tag := text];
  }

  /** Everything but a text matches no condition, and each further one asks for one more value. */
  lemma MatchesAllIff(x: Xml, condition: Condition, tag: string, text: string)
    requires tag !in condition
    ensures MatchesSubset(x, map[]) <==> !x.Text?
    ensures MatchesSubset(x, condition[tag := text]) <==>
      MatchesSubset(x, condition) && Lookup(Entries(x), tag) == Some(Text(text))
  {
    assert tag in condition[tag := text];
    assert forall k :: k in condition ==> k in condition[tag := text] && condition[tag := text][k] == condition[k];
  }

  predicate IsQrReference(x: Xml) {
    !x.Text? && Lookup(Entries(x), "cbc:ID") == Some(Text("QR"))
  }

  lemma {:induction false} KeptIffNotQr(items: seq<Xml>, x: Xml)
    ensures x in NotMatching(items, QR_REFERENCE) <==> x in items && !IsQrReference(x)
  {
    if items != [] {
      MatchesOneIff(items[0], "cbc:ID", "QR");
      KeptIffNotQr(items[1..], x);
    }
  }

  lemma BelowInvoice(root: Xml, tag: string)
    requires HasInvoice(root) && IsPlainTag(tag)
    ensures GetElement(Some(root), Below(tag)) == Lookup(InvoiceOf(root).value.entries, tag)
  {
    BelowIsTwoTags(tag);
    GetElementWalksTags(Some(root), Below(tag));
    WalkBelow(root, tag);
  }

  lemma HashedReferences(es: seq<Entry>, x: Xml)
    requires IsTidy(es)
    ensures x in ElementsOf(Lookup(Hashed(es), REFERENCE)) <==>
      x in ElementsOf(Lookup(es, REFERENCE)) && !IsQrReference(x)
  {
    if Lookup(es, REFERENCE).None? {
      HashedTags(es, REFERENCE);
    } else {
      var v := Lookup(es, REFERENCE).value;
      LookupHashed(es, REFERENCE);
      MatchesOneIff(v, "cbc:ID", "QR");
      if v.Many? {
        HashedArray(v.items, v.named);
        KeptIffNotQr(v.items, x);
      } else {
        HashedSingle(v);
      }
    }
  }

  lemma HashedOthers(es: seq<Entry>, tag: string)
    requires IsTidy(es) && tag != REFERENCE
    ensures Lookup(Hashed(es), tag) == if tag == EXTENSIONS || tag == SIGNATURE then None else Lookup(es, tag)
  {
    if Lookup(es, tag).None? {
      HashedTags(es, tag);
    } else {
      LookupHashed(es, tag);
    }
  }

  /**
   What is hashed below the invoice: no extensions and no signature; of the document references, those of the counter
   and the previous hash included, all but the one of the QR code; and everything else as it is.
   */
  lemma WhatIsHashed(root: Xml, tag: string, x: Xml)
    requires IsParsed(root) && root.Elem? && HasInvoice(root) && IsPlainTag(tag)
    ensures GetElement(Some(Strip(root)), Below(EXTENSIONS)) == None
    ensures GetElement(Some(Strip(root)), Below(SIGNATURE)) == None
    ensures x in ElementsOf(GetElement(Some(Strip(root)), Below(REFERENCE))) <==>
      x in ElementsOf(GetElement(Some(root), Below(REFERENCE))) && !IsQrReference(x)
    ensures tag != EXTENSIONS && tag != SIGNATURE && tag != REFERENCE ==>
      GetElement(Some(Strip(root)), Below(tag)) == GetElement(Some(root), Below(tag))
  {
    var es := InvoiceOf(root).value.entries;
    ParsedIsTidy(root);
    StripSeenFrom(root, INVOICE);
    HashTagsArePlain();
    HashTagsDiffer();
    BelowInvoice(Strip(root), EXTENSIONS);
    BelowInvoice(Strip(root), SIGNATURE);
    BelowInvoice(Strip(root), REFERENCE);
    BelowInvoice(Strip(root), tag);
    BelowInvoice(root, REFERENCE);
    BelowInvoice(root, tag);
    HashedReferences(es, x);
    HashedOthers(es, EXTENSIONS);
    HashedOthers(es, SIGNATURE);
    if tag != REFERENCE {
      HashedOthers(es, tag);
    }
  }

  // ---- The order of the elements ---------------------------------------------------------------

  function TagsOf(es: seq<Entry>): (tags: seq<string>)
    ensures |tags| == |es|
  {
    seq(|es|, i requires 0 <= i < |es| => es[i].tag)
  }

  function InvoiceTags(root: Xml): seq<string>
    requires HasInvoice(root)
  {
    TagsOf(InvoiceOf(root).value.entries)
  }

  /** A tag that is written and not yet there goes last. */
  function WithTag(tags: seq<string>, tag: string, written: bool): seq<string> {
    if written && tag !in tags then tags + [tag] else tags
  }

  lemma {:induction false} PutKeepsOrder(es: seq<Entry>, tag: string, v: Xml)
    ensures TagsOf(Put(es, tag, v)) == WithTag(TagsOf(es), tag, true)
  {
    if es != [] {
      assert TagsOf(es) == [es[0].tag] + TagsOf(es[1..]);
      if es[0].tag != tag {
        PutKeepsOrder(es[1..], tag, v);
        assert TagsOf(Put(es, tag, v)) == [es[0].tag] + TagsOf(Put(es[1..], tag, v));
      }
    }
  }

  lemma SetKeepsOrder(root: Xml, tag: string, overwrite: bool, v: Xml)
    requires HasInvoice(root) && IsPlainTag(tag) && InvoiceTags(root) != []
    ensures var after := SetAt(root, Below(tag), overwrite, v).0;
      HasInvoice(after) && InvoiceTags(after) == WithTag(InvoiceTags(root), tag, true) && InvoiceTags(after) != []
  {
    var es := InvoiceOf(root).value.entries;
    var written := NewValue(Lookup(es, tag), overwrite, v);
    SetIsPut(root, tag, overwrite, v);
    PutKeepsOrder(es, tag, written);
    WithInvoiceTwice(root, Put(es, tag, written), []);
  }

  lemma {:induction false} AppendsKeepOrder(root: Xml, tag: string, vs: seq<Xml>)
    requires HasInvoice(root) && IsPlainTag(tag) && InvoiceTags(root) != []
    ensures var after := Appended(root, Below(tag), vs);
      HasInvoice(after) && InvoiceTags(after) == WithTag(InvoiceTags(root), tag, vs != []) && InvoiceTags(after) != []
    decreases |vs|
  {
    if vs != [] {
      var init := vs[..|vs| - 1];
      AppendsKeepOrder(root, tag, init);
      SetKeepsOrder(Appended(root, Below(tag), init), tag, false, vs[|vs| - 1]);
    }
  }

  /** The elements of a filled invoice: those of the template in their order, then what it lacked as it is written. */
  lemma FilledOrder(root: Xml, fill: D.Fill)
    requires HasInvoice(root) && InvoiceTags(root) != []
    ensures HasInvoice(D.Filled(root, fill))
    ensures var paid := WithTag(InvoiceTags(root), PAYMENT_MEANS, fill.payment.Some?);
      var taxed := WithTag(paid, TAX_TOTAL, fill.taxTotals != []);
      InvoiceTags(D.Filled(root, fill)) ==
        WithTag(WithTag(taxed, MONETARY_TOTAL, true), INVOICE_LINE, fill.lines != [])
  {
    BuildTagsArePlain();
    AppendsKeepOrder(root, PAYMENT_MEANS, D.PaymentMeans(fill));
    AppendsKeepOrder(D.Paid(root, fill), TAX_TOTAL, fill.taxTotals);
    SetKeepsOrder(D.Taxed(root, fill), MONETARY_TOTAL, true, fill.monetaryTotal);
    AppendsKeepOrder(D.Totalled(root, fill), INVOICE_LINE, fill.lines);
  }

  lemma NewTag(tags: seq<string>, more: seq<string>, tag: string)
    requires tag !in tags && tag !in more
    ensures WithTag(tags + more, tag, true) == tags + (more + [tag])
  {
  }

  lemma FourNewTags(tags: seq<string>, a: string, b: string, c: string, d: string)
    requires a !in tags && b !in tags && c !in tags && d !in tags
    requires a != b && a != c && a != d && b != c && b != d && c != d
    ensures WithTag(WithTag(WithTag(WithTag(tags, a, true), b, true), c, true), d, true) == tags + [a, b, c, d]
  {
    assert tags + [] == tags;
    NewTag(tags, [], a);
    NewTag(tags, [a], b);
    NewTag(tags, [a, b], c);
    NewTag(tags, [a, b, c], d);
  }

  /** In a template that has none of them, the builder's elements come last: payment, taxes, totals, lines. */
  lemma BuiltElementsComeLast(root: Xml, fill: D.Fill)
    requires HasInvoice(root) && InvoiceTags(root) != []
    requires fill.payment.Some? && fill.taxTotals != [] && fill.lines != []
    requires forall tag :: tag in [PAYMENT_MEANS, TAX_TOTAL, MONETARY_TOTAL, INVOICE_LINE] ==> tag !in InvoiceTags(root)
    ensures HasInvoice(D.Filled(root, fill))
    ensures InvoiceTags(D.Filled(root, fill)) ==
      InvoiceTags(root) + ["cac:PaymentMeans", "cac:TaxTotal", "cac:LegalMonetaryTotal", "cac:InvoiceLine"]
  {
    D.BuildTagsDiffer();
    FilledOrder(root, fill);
    FourNewTags(InvoiceTags(root), PAYMENT_MEANS, TAX_TOTAL, MONETARY_TOTAL, INVOICE_LINE);
  }
}
