/**
 Where the fields of the simplified tax invoice stand (packages/core/src/templates/simplified-tax-invoice.ts:20-82): the
 tags of the literal text are nested, and each field is the content of its own element.
 */
module InvoicePlaces {
  import opened InvoiceTemplate
  import T = InvoiceText

  /** The open elements, the innermost one last. */
  datatype Place = Nowhere | Top | In(outer: Place, tag: T.Tag)

  /** A tag opens an element, or closes the innermost one; anything else leaves the place as it is. */
  function Past(at: Place, p: T.Piece): Place {
    match p
    case Root => In(at, T.Invoice)
    case Open(tag) => In(at, tag)
    case OpenWith(tag, _) => In(at, tag)
    case Close(tag) => if at.In? && at.tag == tag then at.outer else Nowhere
    case _ => at
  }

  function Passed(at: Place, pieces: seq<T.Piece>): Place
    decreases |pieces|
  {
    if pieces == [] then at else Passed(Past(at, pieces[0]), pieces[1..])
  }

  const ROOT := In(Top, T.Invoice)
  const PARTY := In(In(ROOT, T.Cac(T.SupplierParty)), T.Cac(T.Party))
  const ADDRESS := In(PARTY, T.Cac(T.PostalAddress))
  const REFERENCE := In(ROOT, T.Cac(T.DocumentReference))
  const ATTACHED := In(In(REFERENCE, T.Cac(T.Attachment)), T.Cbc(T.BinaryObject))

  /** The element whose content the field is. */
  function PlaceOf(f: Field): Place {
    match f
    case UblExtensions => In(ROOT, T.UblExtensions)
    case InvoiceSerialNumber => In(ROOT, T.Cbc(T.Id))
    case TerminalUuid => In(ROOT, T.Cbc(T.Uuid))
    case IssueDate => In(ROOT, T.Cbc(T.IssueDate))
    case IssueTime => In(ROOT, T.Cbc(T.IssueTime))
    case InvoiceType => In(ROOT, T.Cbc(T.InvoiceTypeCode))
    case BillingReference => ROOT
    case InvoiceCounterNumber => In(REFERENCE, T.Cbc(T.Uuid))
    case PreviousInvoiceHash => ATTACHED
    case QrCodeData => ATTACHED
    case CommercialRegistrationNumber => In(In(PARTY, T.Cac(T.PartyIdentification)), T.Cbc(T.Id))
    case StreetName => In(ADDRESS, T.Of(T.StreetName))
    case BuildingNumber => In(ADDRESS, T.Of(T.BuildingNumber))
    case PlotIdentification => In(ADDRESS, T.Of(T.PlotIdentification))
    case CitySubdivision => In(ADDRESS, T.Of(T.CitySubdivisionName))
    case City => In(ADDRESS, T.Of(T.CityName))
    case PostalNumber => In(ADDRESS, T.Of(T.PostalZone))
    case VatNumber => In(In(PARTY, T.Cac(T.PartyTaxScheme)), T.Of(T.CompanyId))
    case VatName => In(In(PARTY, T.Cac(T.PartyLegalEntity)), T.Of(T.RegistrationName))
    case BuyerInfo => In(ROOT, T.Cac(T.CustomerParty))
  }

  lemma {:induction false} PassedBoth(at: Place, a: seq<T.Piece>, b: seq<T.Piece>)
    ensures Passed(at, a + b) == Passed(Passed(at, a), b)
    decreases |a|
  {
    if a == [] {
      assert a + b == b;
    } else {
      assert (a + b)[1..] == a[1..] + b;
      PassedBoth(Past(at, a[0]), a[1..], b);
    }
  }

  lemma ThreePassed(at: Place, a: seq<T.Piece>, b: seq<T.Piece>, c: seq<T.Piece>)
    ensures Passed(at, a + b + c) == Passed(Passed(Passed(at, a), b), c)
  {
    PassedBoth(at, a + b, c);
    PassedBoth(at, a, b);
  }

  lemma PiecesPassed(at: Place, p: T.Piece, q: T.Piece, r: T.Piece)
    ensures Passed(at, [p]) == Past(at, p)
    ensures Passed(at, [p, q]) == Past(Past(at, p), q)
    ensures Passed(at, [p, q, r]) == Past(Past(Past(at, p), q), r)
  {
    assert [p][1..] == [] && [p, q][1..] == [q] && [p, q, r][1..] == [q, r] && [q, r][1..] == [r] && [q][1..] == [];
    assert Passed(Past(at, p), [q]) == Past(Past(at, p), q);
    assert [r][1..] == [];
    assert Passed(Past(Past(at, p), q), [r]) == Past(Past(Past(at, p), q), r);
  }

  lemma ElementPassed(at: Place, indent: nat, tag: T.Tag, words: seq<T.Word>)
    ensures Passed(at, T.Element(indent, tag, words)) == at
  {
    PassedBoth(at, [T.Line(indent)], [T.Open(tag), T.Text(words), T.Close(tag)]);
    PiecesPassed(at, T.Line(indent), T.Line(0), T.Line(0));
    PiecesPassed(at, T.Open(tag), T.Text(words), T.Close(tag));
    assert T.Element(indent, tag, words) == [T.Line(indent)] + [T.Open(tag), T.Text(words), T.Close(tag)];
  }

  lemma BetweenPassed(at: Place, last: T.Tag, indent: nat, next: T.Tag)
    ensures Passed(In(at, last), Between(last, indent, next)) == In(at, next)
  {
    PiecesPassed(In(at, last), T.Close(last), T.Line(indent), T.Open(next));
  }

  // ---- The texts between two fields, with any tags ---------------------------------------------

  lemma WithAttributePassed(at: Place, last: T.Tag, indent: nat, next: T.Tag, a: T.Attribute)
    ensures Passed(In(at, last), [T.Close(last), T.Line(indent), T.OpenWith(next, a)]) == In(at, next)
  {
    PiecesPassed(In(at, last), T.Close(last), T.Line(indent), T.OpenWith(next, a));
  }

  /** An element is closed, another one follows, and a third is opened. */
  lemma OverOnePassed(at: Place, last: T.Tag, one: T.Tag, words: seq<T.Word>, next: T.Tag, indent: nat)
    ensures Passed(In(at, last),
        [T.Close(last), T.Line(0)] + T.Element(indent, one, words) + [T.Line(indent), T.Open(next)])
      == In(at, next)
  {
    var close, open := [T.Close(last), T.Line(0)], [T.Line(indent), T.Open(next)];
    ThreePassed(In(at, last), close, T.Element(indent, one, words), open);
    PiecesPassed(In(at, last), T.Close(last), T.Line(0), T.Line(0));
    ElementPassed(at, indent, one, words);
    PiecesPassed(at, T.Line(indent), T.Open(next), T.Line(0));
  }

  lemma OverTwoPassed(at: Place, last: T.Tag, one: T.Tag, two: T.Tag, words: seq<T.Word>, indent: nat)
    ensures Passed(In(at, last),
        [T.Close(last)] + T.Element(indent, one, words) + T.Element(indent, two, words) + [T.Line(indent)])
      == at
  {
    var first, second := T.Element(indent, one, words), T.Element(indent, two, words);
    PassedBoth(In(at, last), [T.Close(last)] + first + second, [T.Line(indent)]);
    ThreePassed(In(at, last), [T.Close(last)], first, second);
    PiecesPassed(In(at, last), T.Close(last), T.Line(0), T.Line(0));
    ElementPassed(at, indent, one, words);
    ElementPassed(at, indent, two, words);
    PiecesPassed(at, T.Line(indent), T.Line(0), T.Line(0));
  }

  lemma ReferencePassed(at: Place, name: T.Word)
    ensures Passed(at, Reference(name)) == In(at, T.Cac(T.DocumentReference))
  {
    PassedBoth(at, [T.Line(4), T.Open(T.Cac(T.DocumentReference))], T.Element(8, T.Cbc(T.Id), [name]));
    PiecesPassed(at, T.Line(4), T.Open(T.Cac(T.DocumentReference)), T.Line(0));
    ElementPassed(In(at, T.Cac(T.DocumentReference)), 8, T.Cbc(T.Id), [name]);
  }

  function AttachedAt(at: Place): Place {
    In(In(In(at, T.Cac(T.DocumentReference)), T.Cac(T.Attachment)), T.Cbc(T.BinaryObject))
  }

  lemma AttachedPassed(at: Place, name: T.Word)
    ensures Passed(at, Attached(name)) == AttachedAt(at)
  {
    var rest := [T.Line(8), T.Open(T.Cac(T.Attachment)), T.Line(12), T.OpenWith(T.Cbc(T.BinaryObject), T.MimeType)];
    PassedBoth(at, Reference(name), rest);
    ReferencePassed(at, name);
  }

  lemma AttachedEnds(at: Place)
    ensures Passed(AttachedAt(at), ATTACHED_END) == at
  {
  }

  lemma SignaturePassed(at: Place)
    ensures Passed(at, SIGNATURE) == at
  {
    var open := [T.Line(4), T.Open(T.Cac(T.Signature))];
    var one := T.Element(8, T.Cbc(T.Id), [T.UblPrefix, T.SignedInvoice]);
    var two := T.Element(8, T.Cbc(T.SignatureMethod), [T.UblPrefix, T.Enveloped]);
    var close := [T.Line(4), T.Close(T.Cac(T.Signature))];
    PassedBoth(at, open + one + two, close);
    ThreePassed(at, open, one, two);
    PiecesPassed(at, open[0], open[1], T.Line(0));
    ElementPassed(In(at, T.Cac(T.Signature)), 8, T.Cbc(T.Id), [T.UblPrefix, T.SignedInvoice]);
    ElementPassed(In(at, T.Cac(T.Signature)), 8, T.Cbc(T.SignatureMethod), [T.UblPrefix, T.Enveloped]);
    PiecesPassed(In(at, T.Cac(T.Signature)), close[0], close[1], T.Line(0));
  }

  lemma PartyStarts(at: Place)
    ensures Passed(at, PARTY_START) ==
      In(In(In(In(at, T.Cac(T.SupplierParty)), T.Cac(T.Party)), T.Cac(T.PartyIdentification)), T.Cbc(T.Id))
  {
  }

  lemma PartyPassed(at: Place)
    ensures Passed(AttachedAt(at), ATTACHED_END + SIGNATURE + PARTY_START) ==
      In(In(In(In(at, T.Cac(T.SupplierParty)), T.Cac(T.Party)), T.Cac(T.PartyIdentification)), T.Cbc(T.Id))
  {
    ThreePassed(AttachedAt(at), ATTACHED_END, SIGNATURE, PARTY_START);
    AttachedEnds(at);
    SignaturePassed(at);
    PartyStarts(at);
  }

  /** From the last element of one group into the first element of the next group. */
  lemma GroupPassed(at: Place, group: T.Tag, last: T.Tag, next: T.Tag, first: T.Tag)
    ensures Passed(In(In(at, group), last),
        [T.Close(last), T.Line(6)] + Between(group, 6, next) + [T.Line(8), T.Open(first)])
      == In(In(at, next), first)
  {
    var inner := In(In(at, group), last);
    ThreePassed(inner, [T.Close(last), T.Line(6)], Between(group, 6, next), [T.Line(8), T.Open(first)]);
    PiecesPassed(inner, T.Close(last), T.Line(6), T.Line(0));
    BetweenPassed(at, group, 6, next);
    PiecesPassed(In(at, next), T.Line(8), T.Open(first), T.Line(0));
  }

  lemma OverParentPassed(at: Place, last: T.Tag, over: T.Tag, child: T.Tag, words: seq<T.Word>)
    ensures Passed(In(at, last),
        Between(last, 8, over) + T.Element(10, child, words) + [T.Line(8), T.Close(over), T.Line(6)])
      == at
  {
    ThreePassed(In(at, last), Between(last, 8, over), T.Element(10, child, words),
      [T.Line(8), T.Close(over), T.Line(6)]);
    BetweenPassed(at, last, 8, over);
    ElementPassed(In(at, over), 10, child, words);
    PiecesPassed(In(at, over), T.Line(8), T.Close(over), T.Line(6));
  }

  /** The same, over an element with one child in between. */
  lemma GroupPassedOver(at: Place, group: T.Tag, last: T.Tag, over: T.Tag, child: T.Tag, words: seq<T.Word>,
      next: T.Tag, first: T.Tag)
    ensures Passed(In(In(at, group), last),
        Between(last, 8, over) + T.Element(10, child, words) + [T.Line(8), T.Close(over), T.Line(6)]
        + Between(group, 6, next) + [T.Line(8), T.Open(first)])
      == In(In(at, next), first)
  {
    var inner, passed := In(In(at, group), last),
      Between(last, 8, over) + T.Element(10, child, words) + [T.Line(8), T.Close(over), T.Line(6)];
    ThreePassed(inner, passed, Between(group, 6, next), [T.Line(8), T.Open(first)]);
    OverParentPassed(In(at, group), last, over, child, words);
    BetweenPassed(at, group, 6, next);
    PiecesPassed(In(at, next), T.Line(8), T.Open(first), T.Line(0));
  }

  /** Three elements are closed, and the one around them is followed by another one. */
  lemma ThreeClosed(at: Place, a: T.Tag, b: T.Tag, c: T.Tag, d: T.Tag, next: T.Tag)
    ensures Passed(In(In(In(In(at, d), c), b), a),
        [T.Close(a), T.Line(6), T.Close(b), T.Line(4), T.Close(c), T.Line(2)] + Between(d, 2, next))
      == In(at, next)
  {
    var inner, one, two := In(In(In(In(at, d), c), b), a), [T.Close(a), T.Line(6), T.Close(b)],
      [T.Line(4), T.Close(c), T.Line(2)];
    ThreePassed(inner, one, two, Between(d, 2, next));
    assert one + two == [T.Close(a), T.Line(6), T.Close(b), T.Line(4), T.Close(c), T.Line(2)];
    PiecesPassed(inner, T.Close(a), T.Line(6), T.Close(b));
    PiecesPassed(In(In(at, d), c), T.Line(4), T.Close(c), T.Line(2));
    BetweenPassed(at, d, 2, next);
  }

  lemma TwoClosed(at: Place, a: T.Tag, b: T.Tag)
    ensures Passed(In(In(at, b), a), [T.Close(a), T.Line(0), T.Close(b), T.Line(0)]) == at
  {
    PassedBoth(In(In(at, b), a), [T.Close(a), T.Line(0), T.Close(b)], [T.Line(0)]);
    assert [T.Close(a), T.Line(0), T.Close(b)] + [T.Line(0)] == [T.Close(a), T.Line(0), T.Close(b), T.Line(0)];
    PiecesPassed(In(In(at, b), a), T.Close(a), T.Line(0), T.Close(b));
    PiecesPassed(at, T.Line(0), T.Line(0), T.Line(0));
  }

  // ---- The template ----------------------------------------------------------------------------

  /** The literal text after a field leads from its element into this place. */
  predicate LeadsTo(f: Field, next: Place) {
    Passed(PlaceOf(f), TextAfter(f)) == next
  }

  lemma HeaderLeads(f: Field, next: Place)
    requires
      || (f.UblExtensions? && next == In(ROOT, T.Cbc(T.Id)))
      || (f.InvoiceSerialNumber? && next == In(ROOT, T.Cbc(T.Uuid)))
      || (f.TerminalUuid? && next == In(ROOT, T.Cbc(T.IssueDate)))
      || (f.IssueDate? && next == In(ROOT, T.Cbc(T.IssueTime)))
      || (f.IssueTime? && next == In(ROOT, T.Cbc(T.InvoiceTypeCode)))
      || (f.InvoiceType? && next == ROOT)
    ensures LeadsTo(f, next)
  {
    match f
    case UblExtensions => OverOnePassed(ROOT, T.UblExtensions, T.Cbc(T.ProfileId), [T.Reporting], T.Cbc(T.Id), 4);
    case InvoiceSerialNumber => BetweenPassed(ROOT, T.Cbc(T.Id), 4, T.Cbc(T.Uuid));
    case TerminalUuid => BetweenPassed(ROOT, T.Cbc(T.Uuid), 4, T.Cbc(T.IssueDate));
    case IssueDate => BetweenPassed(ROOT, T.Cbc(T.IssueDate), 4, T.Cbc(T.IssueTime));
    case IssueTime => WithAttributePassed(ROOT, T.Cbc(T.IssueTime), 4, T.Cbc(T.InvoiceTypeCode), T.Subtype);
    case InvoiceType =>
      OverTwoPassed(ROOT, T.Cbc(T.InvoiceTypeCode), T.Cbc(T.DocumentCurrencyCode), T.Cbc(T.TaxCurrencyCode),
        [T.Riyal], 4);
  }

  lemma CounterPassed(at: Place)
    ensures Passed(at, Reference(T.Counter) + [T.Line(8), T.Open(T.Cbc(T.Uuid))])
      == In(In(at, T.Cac(T.DocumentReference)), T.Cbc(T.Uuid))
  {
    PassedBoth(at, Reference(T.Counter), [T.Line(8), T.Open(T.Cbc(T.Uuid))]);
    ReferencePassed(at, T.Counter);
    PiecesPassed(In(at, T.Cac(T.DocumentReference)), T.Line(8), T.Open(T.Cbc(T.Uuid)), T.Line(0));
  }

  lemma ClosedBefore(at: Place, last: T.Tag, group: T.Tag, more: seq<T.Piece>)
    ensures Passed(In(In(at, group), last), [T.Close(last), T.Line(4), T.Close(group)] + more) == Passed(at, more)
  {
    PassedBoth(In(In(at, group), last), [T.Close(last), T.Line(4), T.Close(group)], more);
    PiecesPassed(In(In(at, group), last), T.Close(last), T.Line(4), T.Close(group));
  }

  lemma HashPassed(at: Place, last: T.Tag, group: T.Tag)
    ensures Passed(In(In(at, group), last), [T.Close(last), T.Line(4), T.Close(group)] + Attached(T.PreviousHash))
      == AttachedAt(at)
  {
    ClosedBefore(at, last, group, Attached(T.PreviousHash));
    AttachedPassed(at, T.PreviousHash);
  }

  lemma QrPassed(at: Place)
    ensures Passed(AttachedAt(at), ATTACHED_END + Attached(T.QrCode)) == AttachedAt(at)
  {
    PassedBoth(AttachedAt(at), ATTACHED_END, Attached(T.QrCode));
    AttachedEnds(at);
    AttachedPassed(at, T.QrCode);
  }

  lemma ReferenceLeads(f: Field, next: Place)
    requires
      || (f.BillingReference? && next == In(REFERENCE, T.Cbc(T.Uuid)))
      || (f.InvoiceCounterNumber? && next == AttachedAt(ROOT))
      || (f.PreviousInvoiceHash? && next == AttachedAt(ROOT))
      || (f.QrCodeData? && next == In(In(PARTY, T.Cac(T.PartyIdentification)), T.Cbc(T.Id)))
    ensures LeadsTo(f, next)
  {
    match f
    case BillingReference => CounterPassed(ROOT);
    case InvoiceCounterNumber => HashPassed(ROOT, T.Cbc(T.Uuid), T.Cac(T.DocumentReference));
    case PreviousInvoiceHash => QrPassed(ROOT);
    case QrCodeData => PartyPassed(ROOT);
  }

  lemma AddressLeads(f: Field, next: Place)
    requires
      || (f.CommercialRegistrationNumber? && next == In(ADDRESS, T.Of(T.StreetName)))
      || (f.StreetName? && next == In(ADDRESS, T.Of(T.BuildingNumber)))
      || (f.BuildingNumber? && next == In(ADDRESS, T.Of(T.PlotIdentification)))
      || (f.PlotIdentification? && next == In(ADDRESS, T.Of(T.CitySubdivisionName)))
      || (f.CitySubdivision? && next == In(ADDRESS, T.Of(T.CityName)))
      || (f.City? && next == In(ADDRESS, T.Of(T.PostalZone)))
    ensures LeadsTo(f, next)
  {
    match f
    case CommercialRegistrationNumber =>
      GroupPassed(PARTY, T.Cac(T.PartyIdentification), T.Cbc(T.Id), T.Cac(T.PostalAddress), T.Of(T.StreetName));
    case StreetName => BetweenPassed(ADDRESS, T.Of(T.StreetName), 8, T.Of(T.BuildingNumber));
    case BuildingNumber => BetweenPassed(ADDRESS, T.Of(T.BuildingNumber), 8, T.Of(T.PlotIdentification));
    case PlotIdentification => BetweenPassed(ADDRESS, T.Of(T.PlotIdentification), 8, T.Of(T.CitySubdivisionName));
    case CitySubdivision => BetweenPassed(ADDRESS, T.Of(T.CitySubdivisionName), 8, T.Of(T.CityName));
    case City => BetweenPassed(ADDRESS, T.Of(T.CityName), 8, T.Of(T.PostalZone));
  }

  lemma PartyLeads(f: Field, next: Place)
    requires
      || (f.PostalNumber? && next == In(In(PARTY, T.Cac(T.PartyTaxScheme)), T.Of(T.CompanyId)))
      || (f.VatNumber? && next == In(In(PARTY, T.Cac(T.PartyLegalEntity)), T.Of(T.RegistrationName)))
      || (f.VatName? && next == In(ROOT, T.Cac(T.CustomerParty)))
      || (f.BuyerInfo? && next == Top)
    ensures LeadsTo(f, next)
  {
    match f
    case PostalNumber =>
      GroupPassedOver(PARTY, T.Cac(T.PostalAddress), T.Of(T.PostalZone), T.Cac(T.Country), T.Of(T.IdentificationCode),
        [T.SaudiArabia], T.Cac(T.PartyTaxScheme), T.Of(T.CompanyId));
    case VatNumber =>
      GroupPassedOver(PARTY, T.Cac(T.PartyTaxScheme), T.Of(T.CompanyId), T.Cac(T.TaxScheme), T.Cbc(T.Id), [T.Vat],
        T.Cac(T.PartyLegalEntity), T.Of(T.RegistrationName));
    case VatName =>
      ThreeClosed(ROOT, T.Of(T.RegistrationName), T.Cac(T.PartyLegalEntity), T.Cac(T.Party), T.Cac(T.SupplierParty),
        T.Cac(T.CustomerParty));
    case BuyerInfo => TwoClosed(Top, T.Cac(T.CustomerParty), T.Invoice);
  }

  lemma HeadLeads()
    ensures Passed(Top, HEAD) == PlaceOf(UblExtensions)
  {
  }

  /**
   Main result: read from the start, the template opens and closes its elements in order, stands in the element of each
   field where its token is, and ends with every element closed.
   */
  lemma TemplateIsNested(k: nat)
    requires k < |LAYOUT|
    ensures Passed(Top, HEAD) == PlaceOf(LAYOUT[0])
    ensures LeadsTo(LAYOUT[k], if k + 1 < |LAYOUT| then PlaceOf(LAYOUT[k + 1]) else Top)
  {
    HeadLeads();
    var f, next := LAYOUT[k], if k + 1 < |LAYOUT| then PlaceOf(LAYOUT[k + 1]) else Top;
    if k < 6 {
      HeaderLeads(f, next);
    } else if k < 10 {
      ReferenceLeads(f, next);
    } else if k < 16 {
      AddressLeads(f, next);
    } else {
      PartyLeads(f, next);
    }
  }
}
