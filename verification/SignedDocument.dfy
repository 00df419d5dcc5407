/**
 Where signing changes a document (packages/core/src/crypto/sign.ts:287-369): at the first text that holds each
 placeholder, and nowhere else.
 */
module SignedDocument {
  import opened Options
  import opened XmlTree
  import opened InvoiceHash
  import opened Signing
  import D = XmlDocument

  // ---- Places in a document --------------------------------------------------------------------

  /** One step down: to the entry of an element with this tag at this position, or to an element of an array. */
  datatype Step = Field(tag: string, index: nat) | Item(index: nat)

  function Below(x: Xml, step: Step): Option<Xml> {
    match step
    case Field(tag, i) =>
      if x.Elem? && i < |x.entries| && x.entries[i].tag == tag then Some(x.entries[i].value) else None
    case Item(i) => if x.Many? && i < |x.items| then Some(x.items[i]) else None
  }

  function NodeAt(x: Xml, place: seq<Step>): Option<Xml>
    decreases |place|
  {
    if place == [] then Some(x)
    else match Below(x, place[0])
      case None => None
      case Some(child) => NodeAt(child, place[1..])
  }

  function TextAt(x: Xml, place: seq<Step>): string {
    match NodeAt(x, place) case Some(Text(s)) => s case _ => ""
  }

  /** At this place stands a text with the token in it. */
  predicate HoldsAt(x: Xml, place: seq<Step>, token: string) {
    match NodeAt(x, place) case Some(Text(s)) => Contains(s, token) case _ => false
  }

  /** The order of the document. */
  predicate IsBefore(p: seq<Step>, q: seq<Step>) {
    p != [] && q != [] && (p[0].index < q[0].index || (p[0] == q[0] && IsBefore(p[1..], q[1..])))
  }

  ghost predicate IsFirst(x: Xml, token: string, place: seq<Step>) {
    HoldsAt(x, place, token) && forall q :: HoldsAt(x, q, token) ==> q == place || IsBefore(place, q)
  }

  ghost predicate IsOnly(x: Xml, token: string, place: seq<Step>) {
    HoldsAt(x, place, token) && forall q :: HoldsAt(x, q, token) ==> q == place
  }

  /** Neither place is above the other. */
  predicate Diverge(p: seq<Step>, q: seq<Step>) {
    !(p <= q) && !(q <= p)
  }

  lemma {:induction false} NodeAtSplit(x: Xml, p: seq<Step>, q: seq<Step>)
    ensures NodeAt(x, p + q) == match NodeAt(x, p) case None => None case Some(y) => NodeAt(y, q)
    decreases |p|
  {
    if p == [] {
      assert p + q == q;
    } else {
      assert (p + q)[1..] == p[1..] + q;
      if Below(x, p[0]).Some? {
        NodeAtSplit(Below(x, p[0]).value, p[1..], q);
      }
    }
  }

  lemma {:induction false} EntryThatHolds(es: seq<Entry>, token: string) returns (i: nat)
    requires HoldsEntries(es, token)
    ensures i < |es| && Holds(es[i].value, token)
  {
    if Holds(es[0].value, token) {
      i := 0;
    } else {
      i := EntryThatHolds(es[1..], token);
      i := i + 1;
    }
  }

  lemma {:induction false} ItemThatHolds(items: seq<Xml>, token: string) returns (i: nat)
    requires HoldsItems(items, token)
    ensures i < |items| && Holds(items[i], token)
  {
    if Holds(items[0], token) {
      i := 0;
    } else {
      i := ItemThatHolds(items[1..], token);
      i := i + 1;
    }
  }

  lemma {:induction false} EntriesHold(es: seq<Entry>, token: string, i: nat)
    requires i < |es| && Holds(es[i].value, token)
    ensures HoldsEntries(es, token)
  {
    if i > 0 {
      EntriesHold(es[1..], token, i - 1);
    }
  }

  lemma {:induction false} ItemsHold(items: seq<Xml>, token: string, i: nat)
    requires i < |items| && Holds(items[i], token)
    ensures HoldsItems(items, token)
  {
    if i > 0 {
      ItemsHold(items[1..], token, i - 1);
    }
  }

  /** A tree that holds the token has a text with it. */
  lemma {:induction false} PlaceOf(x: Xml, token: string) returns (place: seq<Step>)
    requires Holds(x, token)
    ensures HoldsAt(x, place, token)
  {
    match x
    case Text(s) => place := [];
    case Elem(es) =>
      var i := EntryThatHolds(es, token);
      var rest := PlaceOf(es[i].value, token);
      place := [Field(es[i].tag, i)] + rest;
      assert place[1..] == rest;
    case Many(items, _) =>
      var i := ItemThatHolds(items, token);
      var rest := PlaceOf(items[i], token);
      place := [Item(i)] + rest;
      assert place[1..] == rest;
  }

  lemma {:induction false} PlaceHolds(x: Xml, place: seq<Step>, token: string)
    requires HoldsAt(x, place, token)
    ensures Holds(x, token)
    decreases |place|
  {
    if place != [] {
      PlaceHolds(Below(x, place[0]).value, place[1..], token);
      if x.Elem? {
        EntriesHold(x.entries, token, place[0].index);
      } else {
        ItemsHold(x.items, token, place[0].index);
      }
    }
  }

  // ---- One replacement -------------------------------------------------------------------------

  lemma {:induction false} InjectedEntriesAt(es: seq<Entry>, token: string, f: string -> Xml, i: nat)
    requires i < |es| && Holds(es[i].value, token) && forall j :: 0 <= j < i ==> !Holds(es[j].value, token)
    ensures InjectEntries(es, token, f) == es[i := Entry(es[i].tag, Inject(es[i].value, token, f))]
  {
    if i > 0 {
      InjectedEntriesAt(es[1..], token, f, i - 1);
      assert es == [es[0]] + es[1..];
    }
  }

  lemma {:induction false} InjectedItemsAt(items: seq<Xml>, token: string, f: string -> Xml, i: nat)
    requires i < |items| && Holds(items[i], token) && forall j :: 0 <= j < i ==> !Holds(items[j], token)
    ensures InjectItems(items, token, f) == items[i := Inject(items[i], token, f)]
  {
    if i > 0 {
      InjectedItemsAt(items[1..], token, f, i - 1);
      assert items == [items[0]] + items[1..];
    }
  }

  /** Below the first step the rest of the place is the first one, and nothing before the step holds the token. */
  lemma FirstBelow(x: Xml, token: string, place: seq<Step>, step: Step)
    requires IsFirst(x, token, place) && place != [] && Below(x, step).Some? && Holds(Below(x, step).value, token)
    ensures step == place[0] || place[0].index < step.index
    ensures step == place[0] ==> IsFirst(Below(x, step).value, token, place[1..])
  {
    var child := Below(x, step).value;
    var rest := PlaceOf(child, token);
    assert ([step] + rest)[1..] == rest && HoldsAt(x, [step] + rest, token);
    if step == place[0] {
      forall q | HoldsAt(child, q, token) ensures q == place[1..] || IsBefore(place[1..], q) {
        assert ([step] + q)[1..] == q && HoldsAt(x, [step] + q, token);
        assert [step] + place[1..] == place;
      }
    }
  }

  /** Injection changes one child, the one on the way to the first text that holds the token. */
  lemma InjectedBelow(x: Xml, token: string, f: string -> Xml, place: seq<Step>, step: Step)
    requires IsFirst(x, token, place) && place != []
    ensures Below(Inject(x, token, f), step)
      == if step == place[0] then Some(Inject(Below(x, step).value, token, f)) else Below(x, step)
  {
    var i, child := place[0].index, Below(x, place[0]).value;
    PlaceHolds(child, place[1..], token);
    match x
    case Elem(es) =>
      forall j | 0 <= j < i ensures !Holds(es[j].value, token) {
        if Holds(es[j].value, token) {
          FirstBelow(x, token, place, Field(es[j].tag, j));
        }
      }
      InjectedEntriesAt(es, token, f, i);
    case Many(items, _) =>
      forall j | 0 <= j < i ensures !Holds(items[j], token) {
        if Holds(items[j], token) {
          FirstBelow(x, token, place, Item(j));
        }
      }
      InjectedItemsAt(items, token, f, i);
  }

  /** The first text that holds the token is replaced, and every other place is as before. */
  lemma {:induction false} InjectedAt(x: Xml, token: string, f: string -> Xml, place: seq<Step>, other: seq<Step>)
    requires IsFirst(x, token, place)
    ensures NodeAt(Inject(x, token, f), place) == Some(f(TextAt(x, place)))
    ensures Diverge(place, other) ==> NodeAt(Inject(x, token, f), other) == NodeAt(x, other)
    decreases |place|
  {
    if place != [] {
      var child := Below(x, place[0]).value;
      PlaceHolds(child, place[1..], token);
      FirstBelow(x, token, place, place[0]);
      InjectedBelow(x, token, f, place, place[0]);
      if other != [] {
        InjectedBelow(x, token, f, place, other[0]);
      }
      if other != [] && other[0] == place[0] {
        assert [place[0]] + place[1..] == place && [other[0]] + other[1..] == other;
        InjectedAt(child, token, f, place[1..], other[1..]);
      } else {
        InjectedAt(child, token, f, place[1..], []);
      }
    }
  }

  // ---- Both replacements -----------------------------------------------------------------------

  /** Nothing is below a text. */
  lemma NothingBelowText(x: Xml, p: seq<Step>, q: seq<Step>)
    requires p < q && NodeAt(x, q).Some?
    ensures !NodeAt(x, p).Some? || !NodeAt(x, p).value.Text?
  {
    NodeAtSplit(x, p, q[|p|..]);
    assert p + q[|p|..] == q;
  }

  lemma TextsDiverge(x: Xml, p: seq<Step>, q: seq<Step>, one: string, two: string)
    requires HoldsAt(x, p, one) && HoldsAt(x, q, two) && p != q
    ensures Diverge(p, q)
  {
    if p < q {
      NothingBelowText(x, p, q);
    } else if q < p {
      NothingBelowText(x, q, p);
    }
  }

  /** A text of the new document is one of the old document, or of what was put in. */
  lemma TextAfter(x: Xml, after: Xml, p: seq<Step>, r: seq<Step>, token: string)
    requires NodeAt(after, p).Some? && HoldsAt(after, r, token)
    ensures Diverge(p, r) || Holds(NodeAt(after, p).value, token)
  {
    if p <= r {
      NodeAtSplit(after, p, r[|p|..]);
      assert p + r[|p|..] == r;
      PlaceHolds(NodeAt(after, p).value, r[|p|..], token);
    } else if r < p {
      NothingBelowText(after, r, p);
    }
  }

  /** The signature block brings no QR placeholder along, so the first one stays the first. */
  lemma StillFirst(root: Xml, block: string -> Xml, p: seq<Step>, q: seq<Step>)
    requires IsFirst(root, EXTENSIONS_TOKEN, p) && IsFirst(root, QR_TOKEN, q) && p != q
    requires !Holds(block(TextAt(root, p)), QR_TOKEN)
    ensures IsFirst(Inject(root, EXTENSIONS_TOKEN, block), QR_TOKEN, q)
  {
    var after := Inject(root, EXTENSIONS_TOKEN, block);
    TextsDiverge(root, p, q, EXTENSIONS_TOKEN, QR_TOKEN);
    InjectedAt(root, EXTENSIONS_TOKEN, block, p, q);
    forall r | HoldsAt(after, r, QR_TOKEN) ensures r == q || IsBefore(q, r) {
      TextAfter(root, after, p, r, QR_TOKEN);
      InjectedAt(root, EXTENSIONS_TOKEN, block, p, r);
      assert HoldsAt(root, r, QR_TOKEN);
    }
  }

  /** The signature block stands at the one place, the QR code at the other, and all else is as before. */
  ghost predicate IsSignedAt(before: Xml, after: Xml, block: string -> Xml, qr: string -> Xml, p: seq<Step>,
      q: seq<Step>)
  {
    && NodeAt(after, p) == Some(block(TextAt(before, p)))
    && NodeAt(after, q) == Some(qr(TextAt(before, q)))
    && forall r :: Diverge(p, r) && Diverge(q, r) ==> NodeAt(after, r) == NodeAt(before, r)
  }

  /** The first places of the two placeholders, in two texts, when the signature block brings no QR placeholder. */
  ghost predicate AreFirst(root: Xml, block: string -> Xml, p: seq<Step>, q: seq<Step>) {
    IsFirst(root, EXTENSIONS_TOKEN, p) && IsFirst(root, QR_TOKEN, q) && p != q &&
    !Holds(block(TextAt(root, p)), QR_TOKEN)
  }

  /**
   Main result: the signed document has the signature block at the first text with its placeholder, the QR code at the
   first text with the other one, and is unchanged everywhere else.
   */
  lemma SignedAt(root: Xml, block: string -> Xml, qr: string -> Xml, p: seq<Step>, q: seq<Step>)
    requires AreFirst(root, block, p, q)
    ensures IsSignedAt(root, Signed(root, block, qr), block, qr, p, q)
  {
    var between := Inject(root, EXTENSIONS_TOKEN, block);
    TextsDiverge(root, p, q, EXTENSIONS_TOKEN, QR_TOKEN);
    StillFirst(root, block, p, q);
    InjectedAt(root, EXTENSIONS_TOKEN, block, p, q);
    InjectedAt(between, QR_TOKEN, qr, q, p);
    forall r | Diverge(p, r) && Diverge(q, r) ensures NodeAt(Signed(root, block, qr), r) == NodeAt(root, r) {
      InjectedAt(root, EXTENSIONS_TOKEN, block, p, r);
      InjectedAt(between, QR_TOKEN, qr, q, r);
    }
  }

  predicate HoldsNeither(x: Xml) {
    !Holds(x, EXTENSIONS_TOKEN) && !Holds(x, QR_TOKEN)
  }

  /** When each placeholder occurs in one text, and what is put in holds none, the signed document holds none. */
  lemma NoPlaceholderLeft(root: Xml, block: string -> Xml, qr: string -> Xml, p: seq<Step>, q: seq<Step>)
    requires IsOnly(root, EXTENSIONS_TOKEN, p) && IsOnly(root, QR_TOKEN, q) && p != q
    requires HoldsNeither(block(TextAt(root, p))) && HoldsNeither(qr(TextAt(root, q)))
    ensures HoldsNeither(Signed(root, block, qr))
  {
    SignedAt(root, block, qr, p, q);
    NotLeft(root, Signed(root, block, qr), block, qr, p, q, EXTENSIONS_TOKEN);
    NotLeft(root, Signed(root, block, qr), block, qr, p, q, QR_TOKEN);
  }

  lemma NotLeft(before: Xml, after: Xml, block: string -> Xml, qr: string -> Xml, p: seq<Step>, q: seq<Step>,
      token: string)
    requires IsSignedAt(before, after, block, qr, p, q)
    requires !Holds(block(TextAt(before, p)), token) && !Holds(qr(TextAt(before, q)), token)
    requires forall r :: HoldsAt(before, r, token) ==> r == p || r == q
    ensures !Holds(after, token)
  {
    if Holds(after, token) {
      var r := PlaceOf(after, token);
      TextAfter(before, after, p, r, token);
      TextAfter(before, after, q, r, token);
      assert HoldsAt(before, r, token);
    }
  }

  lemma SignedAtAll(root: Xml, block: string -> Xml, qr: string -> Xml)
    ensures forall p, q :: AreFirst(root, block, p, q) ==> IsSignedAt(root, Signed(root, block, qr), block, qr, p, q)
  {
    forall p, q | AreFirst(root, block, p, q) ensures IsSignedAt(root, Signed(root, block, qr), block, qr, p, q) {
      SignedAt(root, block, qr, p, q);
    }
  }

  /** A parsed document with no placeholder in the hashed parts, and contents that can stand in an element. */
  ghost predicate KeepsHash(root: Xml, block: string -> Xml, qr: string -> Xml) {
    root.Elem? && IsParsed(root) && IsContent(block) && IsContent(qr) && HoldsNeither(Strip(root))
  }

  lemma SignedHash(root: Xml, block: string -> Xml, qr: string -> Xml)
    ensures KeepsHash(root, block, qr) ==> Strip(Signed(root, block, qr)) == Strip(root)
  {
    if KeepsHash(root, block, qr) {
      SigningKeepsHashed(root, block, qr);
    }
  }

  /** `generateSignedXMLString`: the hash is taken before the placeholders are filled, and from a copy. */
  method GenerateSigned(invoice: D.XMLDocument, digest: Xml -> string, block: string -> string -> Xml,
      qr: string -> string -> Xml)
    returns (signed: D.XMLDocument, hash: string)
    ensures fresh(signed) && signed.xml_object == Signed(invoice.xml_object, block(hash), qr(hash))
    ensures forall p, q :: AreFirst(invoice.xml_object, block(hash), p, q) ==>
      IsSignedAt(invoice.xml_object, signed.xml_object, block(hash), qr(hash), p, q)
    ensures hash == digest(Strip(invoice.xml_object))
    ensures KeepsHash(invoice.xml_object, block(hash), qr(hash)) ==> hash == digest(Strip(signed.xml_object))
  {
    var stripped := StripCopy(invoice);
    hash := digest(stripped.xml_object);
    var unsigned := invoice.xml_object;
    unsigned := Inject(unsigned, EXTENSIONS_TOKEN, block(hash));
    unsigned := Inject(unsigned, QR_TOKEN, qr(hash));
    signed := new D.XMLDocument(unsigned);
    SignedAtAll(invoice.xml_object, block(hash), qr(hash));
    SignedHash(invoice.xml_object, block(hash), qr(hash));
  }
}
