/**
 Signing does not disturb the hash (packages/core/src/crypto/sign.ts:287-363). Two placeholders in the printed invoice
 are replaced, each at its first occurrence; on the tree this rewrites the first text, in document order, that
 contains the placeholder. The replacement is any function from that text to what the parser then sees.
 */
module Signing {
  import opened Options
  import opened Collections
  import opened XmlTree
  import opened XmlLaws
  import opened InvoicePaths
  import opened InvoiceHash

  const EXTENSIONS_TOKEN := "SET_UBL_EXTENSIONS_STRING"
  const QR_TOKEN := "SET_QR_CODE_DATA"

  predicate Contains(s: string, token: string) {
    exists i: nat :: i <= |s| && OccursAt(s, token, i)
  }

  // ---- Injection -------------------------------------------------------------------------------

  predicate Holds(x: Xml, token: string) {
    match x
    case Text(s) => Contains(s, token)
    case Elem(es) => HoldsEntries(es, token)
    case Many(items, _) => HoldsItems(items, token)
  }

  predicate HoldsEntries(es: seq<Entry>, token: string) {
    es != [] && (Holds(es[0].value, token) || HoldsEntries(es[1..], token))
  }

  predicate HoldsItems(items: seq<Xml>, token: string) {
    items != [] && (Holds(items[0], token) || HoldsItems(items[1..], token))
  }

  function Inject(x: Xml, token: string, f: string -> Xml): Xml {
    match x
    case Text(s) => if Contains(s, token) then f(s) else x
    case Elem(es) => Elem(InjectEntries(es, token, f))
    case Many(items, named) => Many(InjectItems(items, token, f), named)
  }

  function InjectEntries(es: seq<Entry>, token: string, f: string -> Xml): seq<Entry> {
    if es == [] then []
    else if Holds(es[0].value, token) then [Entry(es[0].tag, Inject(es[0].value, token, f))] + es[1..]
    else [es[0]] + InjectEntries(es[1..], token, f)
  }

  function InjectItems(items: seq<Xml>, token: string, f: string -> Xml): seq<Xml> {
    if items == [] then []
    else if Holds(items[0], token) then [Inject(items[0], token, f)] + items[1..]
    else [items[0]] + InjectItems(items[1..], token, f)
  }

  // ---- Where the placeholder is ----------------------------------------------------------------

  function FirstEntry(es: seq<Entry>, token: string): (r: Option<Entry>)
    ensures r.Some? <==> HoldsEntries(es, token)
    ensures r.Some? ==> Holds(r.value.value, token)
  {
    if es == [] then None else if Holds(es[0].value, token) then Some(es[0]) else FirstEntry(es[1..], token)
  }

  function FirstItem(items: seq<Xml>, token: string): (r: Option<Xml>)
    ensures r.Some? <==> HoldsItems(items, token)
    ensures r.Some? ==> Holds(r.value, token)
  {
    if items == [] then None else if Holds(items[0], token) then Some(items[0]) else FirstItem(items[1..], token)
  }

  /** The first occurrence in this entry of the invoice is in a part that is hashed. */
  predicate EntryLandsInHashed(e: Entry, token: string)
    requires Holds(e.value, token)
  {
    && e.tag != EXTENSIONS && e.tag != SIGNATURE
    && (e.tag != REFERENCE
      || !MatchesSubset(if e.value.Many? then FirstItem(e.value.items, token).value else e.value, QR_REFERENCE))
  }

  /** The first occurrence in the document exists and is in a part that is hashed. */
  predicate LandsInHashed(root: Xml, token: string) {
    var outer := FirstEntry(Entries(root), token);
    && outer.Some?
    && (outer.value.tag != INVOICE || !outer.value.value.Elem?
      || EntryLandsInHashed(FirstEntry(outer.value.value.entries, token).value, token))
  }

  // ---- Injection rewrites one entry ------------------------------------------------------------

  lemma {:induction false} NoEntryToInject(es: seq<Entry>, token: string, f: string -> Xml)
    requires !HoldsEntries(es, token)
    ensures InjectEntries(es, token, f) == es
  {
    if es != [] {
      NoEntryToInject(es[1..], token, f);
      assert [es[0]] + es[1..] == es;
    }
  }

  lemma {:induction false} InjectIsPut(es: seq<Entry>, token: string, f: string -> Xml)
    requires Distinct(es) && HoldsEntries(es, token)
    ensures var e := FirstEntry(es, token).value;
      && Lookup(es, e.tag) == Some(e.value)
      && InjectEntries(es, token, f) == Put(es, e.tag, Inject(e.value, token, f))
  {
    if !Holds(es[0].value, token) {
      assert Distinct(es[1..]);
      InjectIsPut(es[1..], token, f);
      NoLookup(es[1..], es[0].tag);
    }
  }

  lemma {:induction false} PutIsTidy(es: seq<Entry>, tag: string, v: Xml)
    requires IsTidy(es) && IsTidyEntry(Entry(tag, v))
    ensures IsTidy(Put(es, tag, v))
  {
    if es == [] {
    } else {
      assert [es[0]] + es[1..] == es;
      TidyCons(es[0], es[1..]);
      if es[0].tag == tag {
        TidyCons(Entry(tag, v), es[1..]);
      } else {
        PutIsTidy(es[1..], tag, v);
        LookupPut(es[1..], tag, v, es[0].tag);
        TidyCons(es[0], Put(es[1..], tag, v));
      }
    }
  }

  // ---- What is hashed, entry by entry ----------------------------------------------------------

  function HashedEntry(e: Entry): seq<Entry> {
    if e.tag == EXTENSIONS || e.tag == SIGNATURE then [] else KeptEntry(e, REFERENCE, Some(QR_REFERENCE))
  }

  lemma HashTagsDiffer()
    ensures |INVOICE| == 7 && |EXTENSIONS| == 17 && |SIGNATURE| == 13 && |REFERENCE| == 31
  {
  }

  lemma {:induction false} HashedCons(e: Entry, rest: seq<Entry>)
    ensures Hashed([e] + rest) == HashedEntry(e) + Hashed(rest)
  {
    HashTagsDiffer();
    KeptCons(e, rest, EXTENSIONS, None);
    var one := KeptEntries(rest, EXTENSIONS, None);
    KeptCons(e, one, SIGNATURE, None);
    KeptCons(e, KeptEntries(one, SIGNATURE, None), REFERENCE, Some(QR_REFERENCE));
  }

  lemma KeptCons(e: Entry, rest: seq<Entry>, tag: string, condition: Option<Condition>)
    ensures KeptEntries([e] + rest, tag, condition) == KeptEntry(e, tag, condition) + KeptEntries(rest, tag, condition)
    ensures KeptEntry(e, tag, condition) == [] ==>
      KeptEntries([e] + rest, tag, condition) == KeptEntries(rest, tag, condition)
  {
    assert ([e] + rest)[1..] == rest;
  }

  lemma {:induction false} HashedPut(es: seq<Entry>, tag: string, v: Xml)
    requires Lookup(es, tag).Some?
    ensures HashedEntry(Entry(tag, v)) == HashedEntry(Entry(tag, Lookup(es, tag).value))
      ==> Hashed(Put(es, tag, v)) == Hashed(es)
  {
    assert [es[0]] + es[1..] == es;
    HashedCons(es[0], es[1..]);
    if es[0].tag == tag {
      HashedCons(Entry(tag, v), es[1..]);
    } else {
      HashedPut(es[1..], tag, v);
      HashedCons(es[0], Put(es[1..], tag, v));
    }
  }

  /** The hashed part of an entry is found under its tag. */
  lemma {:induction false} LookupHashed(es: seq<Entry>, tag: string)
    requires IsTidy(es) && Lookup(es, tag).Some?
    ensures Lookup(Hashed(es), tag) == Lookup(HashedEntry(Entry(tag, Lookup(es, tag).value)), tag)
  {
    assert [es[0]] + es[1..] == es;
    HashedCons(es[0], es[1..]);
    TidyCons(es[0], es[1..]);
    KeptEntryShape(es[0], REFERENCE, Some(QR_REFERENCE));
    var head, rest := HashedEntry(es[0]), Hashed(es[1..]);
    if head == [] {
      assert head + rest == rest;
    } else {
      assert (head + rest)[1..] == rest;
    }
    if es[0].tag == tag {
      HashedTags(es[1..], tag);
    } else {
      LookupHashed(es[1..], tag);
    }
  }

  lemma HashedTags(es: seq<Entry>, tag: string)
    requires Lookup(es, tag).None?
    ensures Lookup(Hashed(es), tag).None?
  {
    KeptTags(es, EXTENSIONS, None, tag);
    KeptTags(KeptEntries(es, EXTENSIONS, None), SIGNATURE, None, tag);
    KeptTags(KeptEntries(KeptEntries(es, EXTENSIONS, None), SIGNATURE, None), REFERENCE, Some(QR_REFERENCE), tag);
  }

  // ---- One injection ---------------------------------------------------------------------------

  /** What an element's content parses to: a string or an element, never an array. */
  ghost predicate IsContent(f: string -> Xml) {
    forall s :: !f(s).Many? && IsParsed(f(s))
  }

  lemma {:induction false} LookupInjected(es: seq<Entry>, token: string, f: string -> Xml, tag: string)
    requires Lookup(es, tag).Some? && !Holds(Lookup(es, tag).value, token)
    ensures Lookup(InjectEntries(es, token, f), tag) == Lookup(es, tag)
  {
    if es[0].tag != tag {
      LookupInjected(es[1..], token, f, tag);
    }
  }

  /** The element that marks a reference as the QR reference is too short to hold a placeholder. */
  lemma QrReferenceStays(x: Xml, token: string, f: string -> Xml)
    requires MatchesSubset(x, QR_REFERENCE) && |token| > 2
    ensures MatchesSubset(Inject(x, token, f), QR_REFERENCE)
  {
    assert "cbc:ID" in QR_REFERENCE;
    assert Lookup(Entries(x), "cbc:ID") == Some(Text("QR"));
    assert !Contains("QR", token);
    if x.Elem? {
      LookupInjected(x.entries, token, f, "cbc:ID");
    }
  }

  lemma {:induction false} ReferencesInjected(items: seq<Xml>, token: string, f: string -> Xml)
    requires HoldsItems(items, token) && |token| > 2
    ensures MatchesSubset(FirstItem(items, token).value, QR_REFERENCE)
      ==> NotMatching(InjectItems(items, token, f), QR_REFERENCE) == NotMatching(items, QR_REFERENCE)
    ensures !MatchesSubset(FirstItem(items, token).value, QR_REFERENCE) && InjectItems(items, token, f) != items
      ==> NotMatching(InjectItems(items, token, f), QR_REFERENCE) != NotMatching(items, QR_REFERENCE)
  {
    var rest := items[1..];
    assert [items[0]] + rest == items;
    if Holds(items[0], token) {
      var first := Inject(items[0], token, f);
      assert ([first] + rest)[1..] == rest;
      if MatchesSubset(items[0], QR_REFERENCE) {
        QrReferenceStays(items[0], token, f);
      } else if first != items[0] {
        assert NotMatching(items, QR_REFERENCE) == [items[0]] + NotMatching(rest, QR_REFERENCE);
        assert NotMatching(items, QR_REFERENCE)[0] == items[0];
        assert |NotMatching(items, QR_REFERENCE)| == 1 + |NotMatching(rest, QR_REFERENCE)|;
      }
    } else {
      ReferencesInjected(rest, token, f);
      var injected := InjectItems(rest, token, f);
      assert ([items[0]] + injected)[1..] == injected;
      var head := if MatchesSubset(items[0], QR_REFERENCE) then [] else [items[0]];
      SameTail(head, NotMatching(injected, QR_REFERENCE), NotMatching(rest, QR_REFERENCE));
    }
  }

  lemma SameTail<T>(head: seq<T>, one: seq<T>, two: seq<T>)
    ensures head + one == head + two <==> one == two
  {
    assert (head + one)[|head|..] == one && (head + two)[|head|..] == two;
  }

  /** What is hashed of a reference that is not part of an array. */
  lemma HashedSingle(x: Xml)
    requires !x.Many?
    ensures HashedEntry(Entry(REFERENCE, x)) == if MatchesSubset(x, QR_REFERENCE) then [] else [Entry(REFERENCE, x)]
  {
    HashTagsDiffer();
    assert [x][1..] == [];
    assert NotMatching([x], QR_REFERENCE) == if MatchesSubset(x, QR_REFERENCE) then [] else [x];
  }

  lemma HashedArray(items: seq<Xml>, named: seq<Entry>)
    ensures var kept := NotMatching(items, QR_REFERENCE);
      Lookup(HashedEntry(Entry(REFERENCE, Many(items, named))), REFERENCE)
      == if kept == [] then None else Some(Many(kept, []))
  {
    HashTagsDiffer();
  }

  lemma ReferenceInjected(x: Xml, token: string, f: string -> Xml)
    requires Holds(x, token) && |token| > 2 && IsContent(f)
    ensures var before, after := Entry(REFERENCE, x), Entry(REFERENCE, Inject(x, token, f));
      && (!EntryLandsInHashed(before, token)
        ==> Lookup(HashedEntry(after), REFERENCE) == Lookup(HashedEntry(before), REFERENCE))
      && (EntryLandsInHashed(before, token) && after != before
        ==> Lookup(HashedEntry(after), REFERENCE) != Lookup(HashedEntry(before), REFERENCE))
  {
    HashTagsDiffer();
    if x.Many? {
      ReferencesInjected(x.items, token, f);
      HashedArray(x.items, x.named);
      HashedArray(InjectItems(x.items, token, f), x.named);
    } else {
      HashedSingle(x);
      HashedSingle(Inject(x, token, f));
      if MatchesSubset(x, QR_REFERENCE) {
        QrReferenceStays(x, token, f);
      }
    }
  }

  lemma HashedByLookup(one: Entry, two: Entry)
    requires one.tag == two.tag && Lookup(HashedEntry(one), one.tag) == Lookup(HashedEntry(two), one.tag)
    ensures HashedEntry(one) == HashedEntry(two)
  {
    KeptEntryShape(one, REFERENCE, Some(QR_REFERENCE));
    KeptEntryShape(two, REFERENCE, Some(QR_REFERENCE));
  }

  lemma InjectedEntryIsTidy(e: Entry, token: string, f: string -> Xml)
    requires IsTidyEntry(e) && IsContent(f)
    ensures IsTidyEntry(Entry(e.tag, Inject(e.value, token, f)))
  {
  }

  /** An entry of the invoice after injection: unchanged as far as it is hashed, or changed there. */
  lemma EntryInjected(e: Entry, token: string, f: string -> Xml)
    requires Holds(e.value, token) && |token| > 2 && IsContent(f)
    ensures var after := Entry(e.tag, Inject(e.value, token, f));
      && (!EntryLandsInHashed(e, token) ==> HashedEntry(after) == HashedEntry(e))
      && (EntryLandsInHashed(e, token) && after != e ==>
        Lookup(HashedEntry(after), e.tag) != Lookup(HashedEntry(e), e.tag))
  {
    var v := Inject(e.value, token, f);
    if e.tag == REFERENCE {
      ReferenceInjected(e.value, token, f);
      if !EntryLandsInHashed(e, token) {
        HashedByLookup(e, Entry(e.tag, v));
      }
    } else if EntryLandsInHashed(e, token) {
      assert HashedEntry(e) == [e] && HashedEntry(Entry(e.tag, v)) == [Entry(e.tag, v)];
    }
  }

  // ---- The whole document ----------------------------------------------------------------------

  lemma ParsedIsTidy(root: Xml)
    requires IsParsed(root)
    ensures HasInvoice(root) ==> IsTidy(InvoiceOf(root).value.entries)
    ensures !HasInvoice(root) && InvoiceOf(root).Some? ==> Entries(InvoiceOf(root).value) == []
  {
    if InvoiceOf(root).Some? {
      FoundIsParsed(Entries(root), INVOICE);
    }
  }

  lemma {:induction false} FoundIsParsed(es: seq<Entry>, tag: string)
    requires Lookup(es, tag).Some? && forall i :: 0 <= i < |es| ==> IsParsed(es[i].value)
    ensures IsParsed(Lookup(es, tag).value)
  {
    if es[0].tag != tag {
      FoundIsParsed(es[1..], tag);
    }
  }

  lemma InjectedIsParsed(x: Xml, token: string, f: string -> Xml)
    requires IsParsed(x) && IsContent(f)
    ensures IsParsed(Inject(x, token, f))
    ensures Inject(x, token, f).Many? <==> x.Many?
  {
    match x
    case Text(s) =>
    case Elem(es) => EntriesInjected(es, token, f);
    case Many(items, _) => ItemsInjected(items, token, f);
  }

  lemma {:induction false} EntriesInjected(es: seq<Entry>, token: string, f: string -> Xml)
    requires IsContent(f) && forall i :: 0 <= i < |es| ==> IsParsed(es[i].value)
    ensures var after := InjectEntries(es, token, f);
      |after| == |es| && forall i :: 0 <= i < |es| ==> after[i].tag == es[i].tag && IsParsed(after[i].value)
  {
    if es != [] {
      if Holds(es[0].value, token) {
        InjectedIsParsed(es[0].value, token, f);
      } else {
        EntriesInjected(es[1..], token, f);
      }
    }
  }

  lemma {:induction false} ItemsInjected(items: seq<Xml>, token: string, f: string -> Xml)
    requires IsContent(f) && forall i :: 0 <= i < |items| ==> !items[i].Many? && IsParsed(items[i])
    ensures var after := InjectItems(items, token, f);
      |after| == |items| && forall i :: 0 <= i < |items| ==> !after[i].Many? && IsParsed(after[i])
  {
    if items != [] {
      if Holds(items[0], token) {
        InjectedIsParsed(items[0], token, f);
      } else {
        ItemsInjected(items[1..], token, f);
      }
    }
  }

  lemma StripParsed(root: Xml)
    requires IsParsed(root)
    ensures Strip(root) == if HasInvoice(root) then WithInvoice(root, Hashed(InvoiceOf(root).value.entries)) else root
  {
    ParsedIsTidy(root);
    if HasInvoice(root) {
      StripIsFilter(root);
    } else {
      StripNeedsInvoice(root);
    }
  }

  /** Stripping looks at `Invoice` alone, and changes an element to an element. */
  lemma StripSeenFrom(root: Xml, tag: string)
    requires IsParsed(root) && root.Elem?
    ensures tag != INVOICE ==> Lookup(Entries(Strip(root)), tag) == Lookup(root.entries, tag)
    ensures HasInvoice(root) ==> InvoiceOf(Strip(root)) == Some(Elem(Hashed(InvoiceOf(root).value.entries)))
    ensures !HasInvoice(root) ==> InvoiceOf(Strip(root)) == InvoiceOf(root)
  {
    StripParsed(root);
    if HasInvoice(root) {
      LookupPut(root.entries, INVOICE, Elem(Hashed(InvoiceOf(root).value.entries)), tag);
      LookupPut(root.entries, INVOICE, Elem(Hashed(InvoiceOf(root).value.entries)), INVOICE);
    }
  }

  lemma InjectedOutside(root: Xml, token: string, f: string -> Xml)
    requires root.Elem? && IsParsed(root) && IsContent(f) && HoldsEntries(root.entries, token)
    requires FirstEntry(root.entries, token).value.tag != INVOICE
      || !FirstEntry(root.entries, token).value.value.Elem?
    ensures Strip(Inject(root, token, f)) == Strip(root) ==> Inject(root, token, f) == root
  {
    var e, after := FirstEntry(root.entries, token).value, Inject(root, token, f);
    var v := Inject(e.value, token, f);
    InjectIsPut(root.entries, token, f);
    InjectedIsParsed(root, token, f);
    FoundIsParsed(root.entries, e.tag);
    InjectedIsParsed(e.value, token, f);
    LookupPut(root.entries, e.tag, v, e.tag);
    StripSeenFrom(root, e.tag);
    StripSeenFrom(after, e.tag);
    if v == e.value {
      PutSame(root.entries, e.tag);
    }
  }

  lemma InjectedInside(root: Xml, token: string, f: string -> Xml)
    requires root.Elem? && IsParsed(root) && IsContent(f) && |token| > 2 && HoldsEntries(root.entries, token)
    requires FirstEntry(root.entries, token).value.tag == INVOICE
    requires FirstEntry(root.entries, token).value.value.Elem?
    ensures HasInvoice(root) && HoldsEntries(InvoiceOf(root).value.entries, token)
    ensures var e := FirstEntry(InvoiceOf(root).value.entries, token).value;
      && (!EntryLandsInHashed(e, token) ==> Strip(Inject(root, token, f)) == Strip(root))
      && (EntryLandsInHashed(e, token) && Strip(Inject(root, token, f)) == Strip(root) ==>
        Inject(root, token, f) == root)
  {
    InjectIsPut(root.entries, token, f);
    ParsedIsTidy(root);
    var es, after := InvoiceOf(root).value.entries, Inject(root, token, f);
    var e, es' := FirstEntry(es, token).value, InjectEntries(es, token, f);
    InjectIsPut(es, token, f);
    FoundTidyEntry(es, e.tag);
    EntryInjected(e, token, f);
    InjectedEntryIsTidy(e, token, f);
    var v := Inject(e.value, token, f);
    PutIsTidy(es, e.tag, v);
    HashedPut(es, e.tag, v);
    LookupPut(es, e.tag, v, e.tag);
    LookupHashed(es, e.tag);
    LookupHashed(es', e.tag);
    WithInvoiceTwice(root, es', Hashed(es'));
    StripIsFilter(root);
    StripIsFilter(after);
    WithInvoiceTwice(root, Hashed(es'), []);
    WithInvoiceTwice(root, Hashed(es), []);
    if v == e.value {
      PutSame(es, e.tag);
      PutSame(root.entries, INVOICE);
    }
  }

  lemma {:induction false} FoundTidyEntry(es: seq<Entry>, tag: string)
    requires IsTidy(es) && Lookup(es, tag).Some?
    ensures IsTidyEntry(Entry(tag, Lookup(es, tag).value))
  {
    if es[0].tag != tag {
      FoundTidyEntry(es[1..], tag);
    } else {
      assert IsTidyEntry(es[0]);
    }
  }

  /**
   Main result: whatever is put in place of a placeholder, what is hashed stays the same exactly when the first
   occurrence is not in a hashed part of the document, or nothing changes at all.
   */
  lemma InjectionKeepsHashedIff(root: Xml, token: string, f: string -> Xml)
    requires root.Elem? && IsParsed(root) && IsContent(f) && |token| > 2
    ensures Strip(Inject(root, token, f)) == Strip(root) <==>
      !LandsInHashed(root, token) || Inject(root, token, f) == root
  {
    if !HoldsEntries(root.entries, token) {
      NoEntryToInject(root.entries, token, f);
    } else {
      var e := FirstEntry(root.entries, token).value;
      InjectIsPut(root.entries, token, f);
      if e.tag == INVOICE && e.value.Elem? {
        InjectedInside(root, token, f);
      } else {
        InjectedOutside(root, token, f);
      }
    }
  }

  // ---- Signing ---------------------------------------------------------------------------------

  /** The document after both replacements. */
  function Signed(root: Xml, block: string -> Xml, qr: string -> Xml): Xml {
    Inject(Inject(root, EXTENSIONS_TOKEN, block), QR_TOKEN, qr)
  }

  lemma {:induction false} FoundHolds(es: seq<Entry>, tag: string, token: string)
    requires Lookup(es, tag).Some? && Holds(Lookup(es, tag).value, token)
    ensures HoldsEntries(es, token)
  {
    if es[0].tag != tag {
      FoundHolds(es[1..], tag, token);
    }
  }

  lemma {:induction false} OtherReferencesHold(items: seq<Xml>, token: string)
    requires HoldsItems(items, token) && !MatchesSubset(FirstItem(items, token).value, QR_REFERENCE)
    ensures HoldsItems(NotMatching(items, QR_REFERENCE), token)
  {
    var rest := NotMatching(items[1..], QR_REFERENCE);
    assert ([items[0]] + rest)[1..] == rest && [] + rest == rest;
    if !Holds(items[0], token) {
      OtherReferencesHold(items[1..], token);
    }
  }

  lemma HashedEntryHolds(e: Entry, token: string)
    requires Holds(e.value, token) && EntryLandsInHashed(e, token)
    ensures Lookup(HashedEntry(e), e.tag).Some? && Holds(Lookup(HashedEntry(e), e.tag).value, token)
  {
    if e.tag == REFERENCE {
      if e.value.Many? {
        OtherReferencesHold(e.value.items, token);
        HashedArray(e.value.items, e.value.named);
      } else {
        HashedSingle(e.value);
      }
    }
  }

  /** A placeholder that lands in a hashed part can be seen in what is hashed. */
  lemma LandingIsVisible(root: Xml, token: string)
    requires root.Elem? && IsParsed(root) && LandsInHashed(root, token)
    ensures Holds(Strip(root), token)
  {
    var e := FirstEntry(root.entries, token).value;
    FirstIsFound(root.entries, token);
    StripSeenFrom(root, e.tag);
    StripParsed(root);
    if e.tag == INVOICE && e.value.Elem? {
      var es := e.value.entries;
      var inner := FirstEntry(es, token).value;
      ParsedIsTidy(root);
      FirstIsFound(es, token);
      HashedEntryHolds(inner, token);
      LookupHashed(es, inner.tag);
      FoundHolds(Hashed(es), inner.tag, token);
      assert Holds(Elem(Hashed(es)), token);
    }
    FoundHolds(Entries(Strip(root)), e.tag, token);
  }

  lemma {:induction false} FirstIsFound(es: seq<Entry>, token: string)
    requires Distinct(es) && HoldsEntries(es, token)
    ensures var e := FirstEntry(es, token).value; Lookup(es, e.tag) == Some(e.value)
  {
    if !Holds(es[0].value, token) {
      assert Distinct(es[1..]);
      FirstIsFound(es[1..], token);
      NoLookup(es[1..], es[0].tag);
    }
  }

  /**
   Main result: when neither placeholder occurs in what is hashed, the signed document hashes like the unsigned one,
   whatever the signature block and the QR code are.
   */
  lemma SigningKeepsHashed(root: Xml, block: string -> Xml, qr: string -> Xml)
    requires root.Elem? && IsParsed(root) && IsContent(block) && IsContent(qr)
    requires !Holds(Strip(root), EXTENSIONS_TOKEN) && !Holds(Strip(root), QR_TOKEN)
    ensures Strip(Signed(root, block, qr)) == Strip(root)
  {
    var injected := Inject(root, EXTENSIONS_TOKEN, block);
    if LandsInHashed(root, EXTENSIONS_TOKEN) {
      LandingIsVisible(root, EXTENSIONS_TOKEN);
    }
    InjectionKeepsHashedIff(root, EXTENSIONS_TOKEN, block);
    InjectedIsParsed(root, EXTENSIONS_TOKEN, block);
    if LandsInHashed(injected, QR_TOKEN) {
      LandingIsVisible(injected, QR_TOKEN);
    }
    InjectionKeepsHashedIff(injected, QR_TOKEN, qr);
  }

  lemma WholeTextContains(token: string)
    ensures Contains(token, token)
  {
    assert OccursAt(token, token, 0);
  }

  /** A placeholder first spelt by the text of another element of the invoice changes that text, and the hash. */
  lemma OtherTextIsTaken(root: Xml, inner: seq<Entry>, tag: string, text: string, token: string, f: string -> Xml)
    requires root.Elem? && IsParsed(root) && IsContent(f) && |token| > 2 && f(text) != Text(text)
    requires FirstEntry(root.entries, token) == Some(Entry(INVOICE, Elem(inner)))
    requires FirstEntry(inner, token) == Some(Entry(tag, Text(text)))
    requires tag != EXTENSIONS && tag != SIGNATURE && tag != REFERENCE
    ensures Strip(Inject(root, token, f)) != Strip(root)
  {
    InjectionKeepsHashedIff(root, token, f);
    FirstIsFound(root.entries, token);
    FoundIsParsed(root.entries, INVOICE);
    InjectIsPut(root.entries, token, f);
    InjectIsPut(inner, token, f);
    LookupPut(root.entries, INVOICE, Elem(InjectEntries(inner, token, f)), INVOICE);
    LookupPut(inner, tag, f(text), tag);
  }

  lemma {:induction false} FirstAfter(before: seq<Entry>, e: Entry, rest: seq<Entry>, token: string)
    requires !HoldsEntries(before, token) && Holds(e.value, token)
    ensures FirstEntry(before + ([e] + rest), token) == Some(e)
  {
    if before == [] {
      assert before + ([e] + rest) == [e] + rest;
    } else {
      assert (before + ([e] + rest))[1..] == before[1..] + ([e] + rest);
      FirstAfter(before[1..], e, rest, token);
    }
  }

  /**
   For one: a serial number that spells the QR placeholder. `declaration` stands for what precedes the invoice, and
   `before` for what precedes its serial number: attributes, the extensions, the profile; `rest` holds the QR
   reference and everything else.
   */
  lemma PlaceholderInSerialNumber(declaration: seq<Entry>, before: seq<Entry>, rest: seq<Entry>, qr: string -> Xml)
    requires IsParsed(WithSerial(declaration, before, rest)) && IsContent(qr) && qr(QR_TOKEN) != Text(QR_TOKEN)
    requires !HoldsEntries(declaration, QR_TOKEN) && !HoldsEntries(before, QR_TOKEN)
    ensures var root := WithSerial(declaration, before, rest);
      Strip(Inject(root, QR_TOKEN, qr)) != Strip(root)
  {
    var serial := Entry("cbc:ID", Text(QR_TOKEN));
    var inner := before + ([serial] + rest);
    var root := WithSerial(declaration, before, rest);
    WholeTextContains(QR_TOKEN);
    HashTagsDiffer();
    assert |"cbc:ID"| == 6;
    FirstAfter(before, serial, rest, QR_TOKEN);
    assert Holds(Elem(inner), QR_TOKEN);
    FirstAfter(declaration, Entry(INVOICE, Elem(inner)), [], QR_TOKEN);
    OtherTextIsTaken(root, inner, "cbc:ID", QR_TOKEN, QR_TOKEN, qr);
  }

  /** A document whose serial number is the QR placeholder. */
  function WithSerial(declaration: seq<Entry>, before: seq<Entry>, rest: seq<Entry>): Xml {
    Elem(declaration + ([Entry(INVOICE, Elem(before + ([Entry("cbc:ID", Text(QR_TOKEN))] + rest)))] + []))
  }
}
