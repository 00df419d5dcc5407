/** The tokens of the simplified tax invoice (packages/core/src/templates/simplified-tax-invoice.ts:20-128). */
module InvoiceTemplate {
  import opened Collections
  import opened TemplateFill
  import S = Signing
  import T = InvoiceText

  datatype Field =
    | UblExtensions | InvoiceSerialNumber | TerminalUuid | IssueDate | IssueTime | InvoiceType | BillingReference
    | InvoiceCounterNumber | PreviousInvoiceHash | QrCodeData | CommercialRegistrationNumber | StreetName
    | BuildingNumber | PlotIdentification | CitySubdivision | City | PostalNumber | VatNumber | VatName | BuyerInfo

  function TokenOf(f: Field): string {
    match f
    case UblExtensions => "SET_UBL_EXTENSIONS_STRING"
    case InvoiceSerialNumber => "SET_INVOICE_SERIAL_NUMBER"
    case TerminalUuid => "SET_TERMINAL_UUID"
    case IssueDate => "SET_ISSUE_DATE"
    case IssueTime => "SET_ISSUE_TIME"
    case InvoiceType => "SET_INVOICE_TYPE"
    case BillingReference => "SET_BILLING_REFERENCE"
    case InvoiceCounterNumber => "SET_INVOICE_COUNTER_NUMBER"
    case PreviousInvoiceHash => "SET_PREVIOUS_INVOICE_HASH"
    case QrCodeData => "SET_QR_CODE_DATA"
    case CommercialRegistrationNumber => "SET_COMMERCIAL_REGISTRATION_NUMBER"
    case StreetName => "SET_STREET_NAME"
    case BuildingNumber => "SET_BUILDING_NUMBER"
    case PlotIdentification => "SET_PLOT_IDENTIFICATION"
    case CitySubdivision => "SET_CITY_SUBDIVISION"
    case City => "SET_CITY"
    case PostalNumber => "SET_POSTAL_NUMBER"
    case VatNumber => "SET_VAT_NUMBER"
    case VatName => "SET_VAT_NAME"
    case BuyerInfo => "SET_BUYER_INFO"
  }

  // ---- The tokens are tokens, and hardly ever prefixes of each other ---------------------------

  lemma IsTokenByCharacters(u: string)
    requires |u| > 4 && u[0] == 'S' && u[1] == 'E' && u[2] == 'T' && u[3] == '_'
    requires forall i :: 0 <= i < |u| ==> IsTokenChar(u[i])
    requires forall i :: 0 < i < |u| - 2 ==> u[i] != 'S' || u[i + 1] != 'E' || u[i + 2] != 'T'
    ensures IsToken(u)
  {
    assert u[0..4] == MARK;
    forall i: nat | 0 < i <= |u| ensures !OccursAt(u, MARK, i) {
      if i + 4 <= |u| {
        assert u[i..i + 4][0] == u[i] && u[i..i + 4][1] == u[i + 1] && u[i..i + 4][2] == u[i + 2];
      }
    }
  }

  lemma SupplierTokens(f: Field)
    requires f.CommercialRegistrationNumber? || f.City? || f.VatName? ||
      f.VatNumber?
    ensures IsToken(TokenOf(f))
  {
    match f
    case CommercialRegistrationNumber => IsTokenByCharacters("SET_COMMERCIAL_REGISTRATION_NUMBER");
    case City => IsTokenByCharacters("SET_CITY");
    case VatName => IsTokenByCharacters("SET_VAT_NAME");
    case VatNumber => IsTokenByCharacters("SET_VAT_NUMBER");
  }

  lemma NumberTokens(f: Field)
    requires f.InvoiceCounterNumber? || f.InvoiceSerialNumber? || f.InvoiceType?
    ensures IsToken(TokenOf(f))
  {
    match f
    case InvoiceCounterNumber => IsTokenByCharacters("SET_INVOICE_COUNTER_NUMBER");
    case InvoiceSerialNumber => IsTokenByCharacters("SET_INVOICE_SERIAL_NUMBER");
    case InvoiceType => IsTokenByCharacters("SET_INVOICE_TYPE");
  }

  lemma HeaderTokens(f: Field)
    requires f.PreviousInvoiceHash? || f.UblExtensions? || f.BuyerInfo?
    ensures IsToken(TokenOf(f))
  {
    match f
    case PreviousInvoiceHash => IsTokenByCharacters("SET_PREVIOUS_INVOICE_HASH");
    case UblExtensions => IsTokenByCharacters("SET_UBL_EXTENSIONS_STRING");
    case BuyerInfo => IsTokenByCharacters("SET_BUYER_INFO");
  }

  lemma ReferenceTokens(f: Field)
    requires f.QrCodeData? || f.IssueDate? || f.IssueTime? ||
      f.BillingReference? || f.TerminalUuid?
    ensures IsToken(TokenOf(f))
  {
    match f
    case QrCodeData => IsTokenByCharacters("SET_QR_CODE_DATA");
    case IssueDate => IsTokenByCharacters("SET_ISSUE_DATE");
    case IssueTime => IsTokenByCharacters("SET_ISSUE_TIME");
    case BillingReference => IsTokenByCharacters("SET_BILLING_REFERENCE");
    case TerminalUuid => IsTokenByCharacters("SET_TERMINAL_UUID");
  }

  lemma AddressTokens(f: Field)
    requires f.PlotIdentification? || f.BuildingNumber? || f.CitySubdivision? ||
      f.PostalNumber? || f.StreetName?
    ensures IsToken(TokenOf(f))
  {
    match f
    case PlotIdentification => IsTokenByCharacters("SET_PLOT_IDENTIFICATION");
    case BuildingNumber => IsTokenByCharacters("SET_BUILDING_NUMBER");
    case CitySubdivision => IsTokenByCharacters("SET_CITY_SUBDIVISION");
    case PostalNumber => IsTokenByCharacters("SET_POSTAL_NUMBER");
    case StreetName => IsTokenByCharacters("SET_STREET_NAME");
  }

  lemma TokensAreTokens(f: Field)
    ensures IsToken(TokenOf(f))
  {
    match f
    case CommercialRegistrationNumber | City | VatName | VatNumber => SupplierTokens(f);
    case InvoiceCounterNumber | InvoiceSerialNumber | InvoiceType => NumberTokens(f);
    case PreviousInvoiceHash | UblExtensions | BuyerInfo => HeaderTokens(f);
    case QrCodeData | IssueDate | IssueTime | BillingReference | TerminalUuid => ReferenceTokens(f);
    case PlotIdentification | BuildingNumber | CitySubdivision | PostalNumber | StreetName => AddressTokens(f);
  }

  /** The first three letters after the mark. */
  function Initials(f: Field): (char, char, char) {
    match f
    case UblExtensions => ('U', 'B', 'L')
    case InvoiceSerialNumber => ('I', 'N', 'V')
    case TerminalUuid => ('T', 'E', 'R')
    case IssueDate => ('I', 'S', 'S')
    case IssueTime => ('I', 'S', 'S')
    case InvoiceType => ('I', 'N', 'V')
    case BillingReference => ('B', 'I', 'L')
    case InvoiceCounterNumber => ('I', 'N', 'V')
    case PreviousInvoiceHash => ('P', 'R', 'E')
    case QrCodeData => ('Q', 'R', '_')
    case CommercialRegistrationNumber => ('C', 'O', 'M')
    case StreetName => ('S', 'T', 'R')
    case BuildingNumber => ('B', 'U', 'I')
    case PlotIdentification => ('P', 'L', 'O')
    case CitySubdivision => ('C', 'I', 'T')
    case City => ('C', 'I', 'T')
    case PostalNumber => ('P', 'O', 'S')
    case VatNumber => ('V', 'A', 'T')
    case VatName => ('V', 'A', 'T')
    case BuyerInfo => ('B', 'U', 'Y')
  }

  lemma InitialsOf(f: Field)
    ensures |TokenOf(f)| >= 8
    ensures (TokenOf(f)[4], TokenOf(f)[5], TokenOf(f)[6]) == Initials(f)
  {
  }

  lemma LaterLetters()
    ensures |TokenOf(InvoiceSerialNumber)| == 25 && TokenOf(InvoiceSerialNumber)[12] == 'S'
    ensures |TokenOf(InvoiceType)| == 16 && TokenOf(InvoiceType)[12] == 'T'
    ensures |TokenOf(InvoiceCounterNumber)| == 26 && TokenOf(InvoiceCounterNumber)[12] == 'C'
    ensures |TokenOf(IssueDate)| == 14 && TokenOf(IssueDate)[10] == 'D'
    ensures |TokenOf(IssueTime)| == 14 && TokenOf(IssueTime)[10] == 'T'
    ensures |TokenOf(VatNumber)| == 14 && TokenOf(VatNumber)[9] == 'U'
    ensures |TokenOf(VatName)| == 12 && TokenOf(VatName)[9] == 'A'
    ensures |TokenOf(CitySubdivision)| == 20 && |TokenOf(City)| == 8
  {
  }

  lemma PrefixLetters(t: string, u: string, i: nat)
    requires t <= u && i < |t|
    ensures t[i] == u[i]
  {
  }

  /** Fields with the same initials. */
  predicate IsSameGroup(f: Field, g: Field) {
    || f == g
    || ((f.InvoiceSerialNumber? || f.InvoiceType? || f.InvoiceCounterNumber?)
      && (g.InvoiceSerialNumber? || g.InvoiceType? || g.InvoiceCounterNumber?))
    || ((f.IssueDate? || f.IssueTime?) && (g.IssueDate? || g.IssueTime?))
    || ((f.VatNumber? || f.VatName?) && (g.VatNumber? || g.VatName?))
    || ((f.City? || f.CitySubdivision?) && (g.City? || g.CitySubdivision?))
  }

  lemma SameInitials(f: Field, g: Field)
    ensures Initials(f) == Initials(g) ==> IsSameGroup(f, g)
  {
  }

  /** One token only is the start of another one: SET_CITY, of SET_CITY_SUBDIVISION. */
  lemma OnlyCityIsPrefix(f: Field, g: Field)
    requires TokenOf(f) <= TokenOf(g)
    ensures f == g || (f.City? && g.CitySubdivision?)
  {
    InitialsOf(f);
    InitialsOf(g);
    PrefixLetters(TokenOf(f), TokenOf(g), 4);
    PrefixLetters(TokenOf(f), TokenOf(g), 5);
    PrefixLetters(TokenOf(f), TokenOf(g), 6);
    SameInitials(f, g);
    LaterLetters();
    if |TokenOf(f)| > 12 {
      PrefixLetters(TokenOf(f), TokenOf(g), 12);
    }
    if |TokenOf(f)| > 10 {
      PrefixLetters(TokenOf(f), TokenOf(g), 9);
      PrefixLetters(TokenOf(f), TokenOf(g), 10);
    }
  }

  // ---- The replacements, in any text -----------------------------------------------------------

  /** The fields in the order of the template. */
  const LAYOUT: seq<Field> := [
    UblExtensions, InvoiceSerialNumber, TerminalUuid, IssueDate, IssueTime, InvoiceType, BillingReference,
    InvoiceCounterNumber, PreviousInvoiceHash, QrCodeData, CommercialRegistrationNumber, StreetName, BuildingNumber,
    PlotIdentification, CitySubdivision, City, PostalNumber, VatNumber, VatName, BuyerInfo]

  /** The fields in the order of the replacements; the two placeholders of the signature are not among them. */
  const CHAIN: seq<Field> := [
    InvoiceType, BillingReference, InvoiceSerialNumber, TerminalUuid, IssueDate, IssueTime, PreviousInvoiceHash,
    InvoiceCounterNumber, CommercialRegistrationNumber, StreetName, BuildingNumber, PlotIdentification,
    CitySubdivision, City, PostalNumber, VatNumber, VatName, BuyerInfo]

  /** The fields with the text behind each of them. */
  function Template(gaps: seq<string>): (slots: seq<Slot>)
    requires |gaps| == |LAYOUT|
    ensures |slots| == |LAYOUT|
  {
    seq(|LAYOUT|, k requires 0 <= k < |LAYOUT| => Slot(TokenOf(LAYOUT[k]), gaps[k]))
  }

  function Pairs(values: Field -> string): (pairs: seq<Pair>)
    ensures |pairs| == |CHAIN|
  {
    seq(|CHAIN|, i requires 0 <= i < |CHAIN| => Pair(TokenOf(CHAIN[i]), values(CHAIN[i])))
  }

  /** The filled template: every field but the two placeholders holds its value. */
  function Expected(gaps: seq<string>, values: Field -> string): seq<Slot>
    requires |gaps| == |LAYOUT|
  {
    seq(|LAYOUT|, k requires 0 <= k < |LAYOUT| =>
      Slot(if IsPlaceholder(LAYOUT[k]) then TokenOf(LAYOUT[k]) else values(LAYOUT[k]), gaps[k]))
  }

  predicate IsPlaceholder(f: Field) {
    f.UblExtensions? || f.QrCodeData?
  }

  lemma TokensDiffer(f: Field, g: Field)
    ensures TokenOf(f) == TokenOf(g) <==> f == g
  {
    if TokenOf(f) == TokenOf(g) {
      assert TokenOf(f) <= TokenOf(g) && TokenOf(g) <= TokenOf(f);
      OnlyCityIsPrefix(f, g);
      OnlyCityIsPrefix(g, f);
    }
  }

  lemma LayoutIsDistinct()
    ensures forall k, l :: 0 <= k < l < |LAYOUT| ==> LAYOUT[k] != LAYOUT[l]
  {
  }

  /** Where each field is replaced. */
  function Turn(f: Field): (i: nat)
    requires !IsPlaceholder(f)
    ensures i < |CHAIN| && CHAIN[i] == f
  {
    match f
    case InvoiceType => 0
    case BillingReference => 1
    case InvoiceSerialNumber => 2
    case TerminalUuid => 3
    case IssueDate => 4
    case IssueTime => 5
    case PreviousInvoiceHash => 6
    case InvoiceCounterNumber => 7
    case CommercialRegistrationNumber => 8
    case StreetName => 9
    case BuildingNumber => 10
    case PlotIdentification => 11
    case CitySubdivision => 12
    case City => 13
    case PostalNumber => 14
    case VatNumber => 15
    case VatName => 16
    case BuyerInfo => 17
  }

  lemma ChainOrder()
    ensures forall i :: 0 <= i < |CHAIN| ==> !IsPlaceholder(CHAIN[i])
    ensures forall i :: 0 <= i < |CHAIN| && CHAIN[i].City? ==> i == 13
    ensures CHAIN[12] == CitySubdivision
  {
  }

  ghost predicate AreValues(values: Field -> string) {
    forall f :: IsFree(values(f)) && IsVerbatim(values(f))
  }

  lemma TemplateIsSound(gaps: seq<string>, values: Field -> string)
    requires |gaps| == |LAYOUT| && AreValues(values) && forall k :: 0 <= k < |gaps| ==> IsGap(gaps[k])
    ensures IsTemplate(Template(gaps)) && TokensDistinct(Template(gaps)) && ArePlain(Pairs(values))
  {
    var slots := Template(gaps);
    forall k | 0 <= k < |slots| ensures IsToken(slots[k].content) {
      TokensAreTokens(LAYOUT[k]);
    }
    forall i | 0 <= i < |CHAIN| ensures IsPlain(Pairs(values)[i]) {
      TokensAreTokens(CHAIN[i]);
    }
    LayoutIsDistinct();
    forall k, l | 0 <= k < l < |slots| ensures slots[k].content != slots[l].content {
      TokensDiffer(LAYOUT[k], LAYOUT[l]);
    }
  }

  /** SET_CITY_SUBDIVISION is replaced before SET_CITY, so the order is right. */
  lemma ChainIsOrderly(gaps: seq<string>, values: Field -> string)
    requires |gaps| == |LAYOUT|
    ensures IsOrderly(Template(gaps), Pairs(values))
  {
    var slots, pairs := Template(gaps), Pairs(values);
    ChainOrder();
    forall k, i | 0 <= k < |slots| && 0 <= i < |pairs| &&
        IsToken(slots[k].content) && pairs[i].token <= slots[k].content
      ensures IsReplacedBy(slots[k].content, pairs, i)
    {
      OnlyCityIsPrefix(CHAIN[i], LAYOUT[k]);
      assert pairs[i].token == slots[k].content || pairs[12].token == slots[k].content;
    }
  }

  lemma FieldValue(f: Field, values: Field -> string)
    ensures ValueOf(TokenOf(f), Pairs(values)) == if IsPlaceholder(f) then TokenOf(f) else values(f)
  {
    var pairs := Pairs(values);
    ChainOrder();
    forall j | 0 <= j < |pairs| ensures pairs[j].token == TokenOf(f) <==> CHAIN[j] == f {
      TokensDiffer(CHAIN[j], f);
    }
    if IsPlaceholder(f) {
      NoValue(TokenOf(f), pairs);
    } else {
      ValueFound(TokenOf(f), pairs, Turn(f));
    }
  }

  /** The chain fills in every field at once, whatever the values and the text between the fields are. */
  lemma FilledAtOnce(head: string, gaps: seq<string>, values: Field -> string)
    requires IsHead(head) && |gaps| == |LAYOUT| && AreValues(values)
    requires forall k :: 0 <= k < |gaps| ==> IsGap(gaps[k])
    ensures Fill(head + Flat(Template(gaps)), Pairs(values)) == head + Flat(Expected(gaps, values))
  {
    var slots, pairs := Template(gaps), Pairs(values);
    TemplateIsSound(gaps, values);
    ChainIsOrderly(gaps, values);
    FillIsSubstitution(head, slots, pairs);
    forall k | 0 <= k < |slots| ensures Substituted(slots, pairs)[k] == Expected(gaps, values)[k] {
      FieldValue(LAYOUT[k], values);
    }
    assert Substituted(slots, pairs) == Expected(gaps, values);
  }

  lemma PlaceholderPlaces()
    ensures forall k :: 0 <= k < |LAYOUT| ==> (LAYOUT[k].UblExtensions? <==> k == 0)
    ensures forall k :: 0 <= k < |LAYOUT| ==> (LAYOUT[k].QrCodeData? <==> k == 9)
  {
  }

  lemma ExpectedHolders(gaps: seq<string>, values: Field -> string, f: Field)
    requires |gaps| == |LAYOUT| && AreValues(values) && IsPlaceholder(f)
    ensures Holders(Expected(gaps, values), TokenOf(f)) == 1
  {
    var slots, place := Expected(gaps, values), if f.UblExtensions? then 0 else 9;
    PlaceholderPlaces();
    TokensAreTokens(f);
    forall k | 0 <= k < |slots| ensures TokenOf(f) <= slots[k].content <==> k == place {
      if IsPlaceholder(LAYOUT[k]) {
        if TokenOf(f) <= TokenOf(LAYOUT[k]) {
          OnlyCityIsPrefix(f, LAYOUT[k]);
        }
      } else {
        FreeIsNoToken(values(LAYOUT[k]), TokenOf(f));
      }
    }
    OneHolder(slots, TokenOf(f), place);
  }

  lemma PlaceholderLeft(head: string, gaps: seq<string>, values: Field -> string, f: Field)
    requires IsHead(head) && |gaps| == |LAYOUT| && AreValues(values) && IsPlaceholder(f)
    requires forall k :: 0 <= k < |gaps| ==> IsGap(gaps[k])
    ensures Count(Fill(head + Flat(Template(gaps)), Pairs(values)), TokenOf(f)) == 1
  {
    FilledAtOnce(head, gaps, values);
    TemplateIsSound(gaps, values);
    TokensAreTokens(f);
    TokensAreTokens(UblExtensions);
    TokensAreTokens(QrCodeData);
    assert IsTemplate(Expected(gaps, values));
    CountInTemplate(head, Expected(gaps, values), TokenOf(f));
    ExpectedHolders(gaps, values, f);
  }

  // ---- The template ----------------------------------------------------------------------------

  /** The line break between two elements of one parent. */
  function Between(last: T.Tag, indent: nat, next: T.Tag): seq<T.Piece> {
    [T.Close(last), T.Line(indent), T.Open(next)]
  }

  function Reference(name: T.Word): seq<T.Piece> {
    [T.Line(4), T.Open(T.Cac(T.DocumentReference))] + T.Element(8, T.Cbc(T.Id), [name])
  }

  function Attached(name: T.Word): seq<T.Piece> {
    Reference(name) + [T.Line(8), T.Open(T.Cac(T.Attachment)),
      T.Line(12), T.OpenWith(T.Cbc(T.BinaryObject), T.MimeType)]
  }

  const ATTACHED_END: seq<T.Piece> := [
    T.Close(T.Cbc(T.BinaryObject)), T.Line(8), T.Close(T.Cac(T.Attachment)), T.Line(4),
    T.Close(T.Cac(T.DocumentReference))]

  const SIGNATURE: seq<T.Piece> :=
    [T.Line(4), T.Open(T.Cac(T.Signature))]
    + T.Element(8, T.Cbc(T.Id), [T.UblPrefix, T.SignedInvoice])
    + T.Element(8, T.Cbc(T.SignatureMethod), [T.UblPrefix, T.Enveloped])
    + [T.Line(4), T.Close(T.Cac(T.Signature))]

  const PARTY_START: seq<T.Piece> := [
    T.Line(4), T.Open(T.Cac(T.SupplierParty)), T.Line(4), T.Open(T.Cac(T.Party)), T.Line(6),
    T.Open(T.Cac(T.PartyIdentification)), T.Line(8), T.OpenWith(T.Cbc(T.Id), T.SchemeCrn)]

  /** The text behind a field. */
  function TextAfter(f: Field): seq<T.Piece> {
    match f
    case UblExtensions =>
      [T.Close(T.UblExtensions), T.Line(0)] + T.Element(4, T.Cbc(T.ProfileId), [T.Reporting])
      + [T.Line(4), T.Open(T.Cbc(T.Id))]
    case InvoiceSerialNumber => Between(T.Cbc(T.Id), 4, T.Cbc(T.Uuid))
    case TerminalUuid => Between(T.Cbc(T.Uuid), 4, T.Cbc(T.IssueDate))
    case IssueDate => Between(T.Cbc(T.IssueDate), 4, T.Cbc(T.IssueTime))
    case IssueTime => [T.Close(T.Cbc(T.IssueTime)), T.Line(4), T.OpenWith(T.Cbc(T.InvoiceTypeCode), T.Subtype)]
    case InvoiceType =>
      [T.Close(T.Cbc(T.InvoiceTypeCode))] + T.Element(4, T.Cbc(T.DocumentCurrencyCode), [T.Riyal])
      + T.Element(4, T.Cbc(T.TaxCurrencyCode), [T.Riyal]) + [T.Line(4)]
    case BillingReference => Reference(T.Counter) + [T.Line(8), T.Open(T.Cbc(T.Uuid))]
    case InvoiceCounterNumber =>
      [T.Close(T.Cbc(T.Uuid)), T.Line(4), T.Close(T.Cac(T.DocumentReference))] + Attached(T.PreviousHash)
    case PreviousInvoiceHash => ATTACHED_END + Attached(T.QrCode)
    case QrCodeData => ATTACHED_END + SIGNATURE + PARTY_START
    case CommercialRegistrationNumber =>
      [T.Close(T.Cbc(T.Id)), T.Line(6)] + Between(T.Cac(T.PartyIdentification), 6, T.Cac(T.PostalAddress))
      + [T.Line(8), T.Open(T.Of(T.StreetName))]
    case StreetName => Between(T.Of(T.StreetName), 8, T.Of(T.BuildingNumber))
    case BuildingNumber => Between(T.Of(T.BuildingNumber), 8, T.Of(T.PlotIdentification))
    case PlotIdentification => Between(T.Of(T.PlotIdentification), 8, T.Of(T.CitySubdivisionName))
    case CitySubdivision => Between(T.Of(T.CitySubdivisionName), 8, T.Of(T.CityName))
    case City => Between(T.Of(T.CityName), 8, T.Of(T.PostalZone))
    case PostalNumber =>
      Between(T.Of(T.PostalZone), 8, T.Cac(T.Country)) + T.Element(10, T.Of(T.IdentificationCode), [T.SaudiArabia])
      + [T.Line(8), T.Close(T.Cac(T.Country)), T.Line(6)] + Between(T.Cac(T.PostalAddress), 6, T.Cac(T.PartyTaxScheme))
      + [T.Line(8), T.Open(T.Of(T.CompanyId))]
    case VatNumber =>
      Between(T.Of(T.CompanyId), 8, T.Cac(T.TaxScheme)) + T.Element(10, T.Cbc(T.Id), [T.Vat])
      + [T.Line(8), T.Close(T.Cac(T.TaxScheme)), T.Line(6)]
      + Between(T.Cac(T.PartyTaxScheme), 6, T.Cac(T.PartyLegalEntity)) + [T.Line(8), T.Open(T.Of(T.RegistrationName))]
    case VatName =>
      [T.Close(T.Of(T.RegistrationName)), T.Line(6), T.Close(T.Cac(T.PartyLegalEntity)), T.Line(4),
        T.Close(T.Cac(T.Party)), T.Line(2)]
      + Between(T.Cac(T.SupplierParty), 2, T.Cac(T.CustomerParty))
    case BuyerInfo => [T.Close(T.Cac(T.CustomerParty)), T.Line(0), T.Close(T.Invoice), T.Line(0)]
  }

  const HEAD: seq<T.Piece> := [T.Line(0), T.Declaration, T.Line(0), T.Root, T.Open(T.UblExtensions)]

  function Head(): string {
    T.Print(HEAD)
  }

  function Gaps(): (gaps: seq<string>)
    ensures |gaps| == |LAYOUT|
  {
    seq(|LAYOUT|, k requires 0 <= k < |LAYOUT| => T.Print(TextAfter(LAYOUT[k])))
  }

  /** `populateSimplifiedTaxInvoiceTemplate` */
  function Populated(values: Field -> string): string {
    Fill(Head() + Flat(Template(Gaps())), Pairs(values))
  }

  lemma TextEdges(f: Field)
    ensures TextAfter(f) != [] && !TextAfter(f)[0].Text? && !TextAfter(f)[|TextAfter(f)| - 1].Text?
  {
  }

  lemma GapIsSound(f: Field)
    ensures IsGap(T.Print(TextAfter(f)))
  {
    TextEdges(f);
    T.PrintIsGap(TextAfter(f));
  }

  lemma HeadIsSound()
    ensures IsHead(Head())
  {
    T.PrintIsGap(HEAD);
  }

  /** No text between the fields holds a token, or touches one with a letter. */
  lemma TextIsSound()
    ensures IsHead(Head()) && forall k :: 0 <= k < |Gaps()| ==> IsGap(Gaps()[k])
  {
    HeadIsSound();
    forall k | 0 <= k < |LAYOUT| ensures IsGap(Gaps()[k]) {
      GapIsSound(LAYOUT[k]);
    }
  }

  /** Main result: the populated template is the template with every field filled in. */
  lemma PopulatedIsExpected(values: Field -> string)
    requires AreValues(values)
    ensures Populated(values) == Head() + Flat(Expected(Gaps(), values))
  {
    TextIsSound();
    FilledAtOnce(Head(), Gaps(), values);
  }

  /** The two placeholders for the signature and the QR code each survive exactly once. */
  lemma PlaceholdersSurvive(values: Field -> string, f: Field)
    requires AreValues(values) && IsPlaceholder(f)
    ensures Count(Populated(values), TokenOf(f)) == 1
  {
    TextIsSound();
    PlaceholderLeft(Head(), Gaps(), values, f);
  }

  /** The placeholders that the template keeps are those that signing looks for. */
  lemma PlaceholdersAreForSigning()
    ensures TokenOf(UblExtensions) == S.EXTENSIONS_TOKEN && TokenOf(QrCodeData) == S.QR_TOKEN
  {
  }
}
