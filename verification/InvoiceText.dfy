/**
 The text between the tokens of the simplified tax invoice
 (packages/core/src/templates/simplified-tax-invoice.ts:20-82), printed from its tags, words and line breaks.
 */
module InvoiceText {
  import opened Collections
  import opened TemplateFill

  /** Elements of the namespace `cac`. */
  datatype Aggregate =
    | DocumentReference | Attachment | Signature | SupplierParty | CustomerParty | Party | PartyIdentification
    | PostalAddress | Country | PartyTaxScheme | TaxScheme | PartyLegalEntity

  /** Elements of the namespace `cbc`. */
  datatype Basic =
    | ProfileId | Id | Uuid | IssueDate | IssueTime | InvoiceTypeCode | DocumentCurrencyCode | TaxCurrencyCode
    | BinaryObject | SignatureMethod

  /** Elements of the namespace `cbc` about a party. */
  datatype Detail =
    | StreetName | BuildingNumber | PlotIdentification | CitySubdivisionName | CityName | PostalZone
    | IdentificationCode | CompanyId | RegistrationName

  datatype Tag = Invoice | UblExtensions | Cac(aggregate: Aggregate) | Cbc(basic: Basic) | Of(detail: Detail)

  datatype Schema = Invoices | Aggregates | Basics | Extensions

  datatype Attribute = Version | Encoding | Subtype | MimeType | SchemeCrn

  datatype Word =
    | UblPrefix | SchemaPrefix | SignedInvoice | Enveloped | Reporting | Riyal | Counter | PreviousHash | QrCode
    | SaudiArabia | Vat

  datatype Piece =
    | Line(indent: nat)
    | Declaration
    | Root
    | Open(tag: Tag)
    | OpenWith(tag: Tag, attribute: Attribute)
    | Close(tag: Tag)
    | Text(words: seq<Word>)

  function AggregateName(a: Aggregate): string {
    match a
    case DocumentReference => "AdditionalDocumentReference"
    case Attachment => "Attachment"
    case Signature => "Signature"
    case SupplierParty => "AccountingSupplierParty"
    case CustomerParty => "AccountingCustomerParty"
    case Party => "Party"
    case PartyIdentification => "PartyIdentification"
    case PostalAddress => "PostalAddress"
    case Country => "Country"
    case PartyTaxScheme => "PartyTaxScheme"
    case TaxScheme => "TaxScheme"
    case PartyLegalEntity => "PartyLegalEntity"
  }

  function BasicName(b: Basic): string {
    match b
    case ProfileId => "ProfileID"
    case Id => "ID"
    case Uuid => "UUID"
    case IssueDate => "IssueDate"
    case IssueTime => "IssueTime"
    case InvoiceTypeCode => "InvoiceTypeCode"
    case DocumentCurrencyCode => "DocumentCurrencyCode"
    case TaxCurrencyCode => "TaxCurrencyCode"
    case BinaryObject => "EmbeddedDocumentBinaryObject"
    case SignatureMethod => "SignatureMethod"
  }

  function DetailName(d: Detail): string {
    match d
    case StreetName => "StreetName"
    case BuildingNumber => "BuildingNumber"
    case PlotIdentification => "PlotIdentification"
    case CitySubdivisionName => "CitySubdivisionName"
    case CityName => "CityName"
    case PostalZone => "PostalZone"
    case IdentificationCode => "IdentificationCode"
    case CompanyId => "CompanyID"
    case RegistrationName => "RegistrationName"
  }

  function Name(t: Tag): string {
    match t
    case Invoice => "Invoice"
    case UblExtensions => "ext:UBLExtensions"
    case Cac(a) => "cac:" + AggregateName(a)
    case Cbc(b) => "cbc:" + BasicName(b)
    case Of(d) => "cbc:" + DetailName(d)
  }

  function Given(a: Attribute): string {
    match a
    case Version => "version=\"1.0\""
    case Encoding => "encoding=\"UTF-8\""
    case Subtype => "name=\"0211010\""
    case MimeType => "mimeCode=\"text/plain\""
    case SchemeCrn => "schemeID=\"CRN\""
  }

  function SchemaName(s: Schema): string {
    match s
    case Invoices => "Invoice-2"
    case Aggregates => "CommonAggregateComponents-2"
    case Basics => "CommonBasicComponents-2"
    case Extensions => "CommonExtensionComponents-2"
  }

  function Spelled(w: Word): string {
    match w
    case UblPrefix => "urn:oasis:names:specification:ubl:"
    case SchemaPrefix => "schema:xsd:"
    case SignedInvoice => "signature:Invoice"
    case Enveloped => "dsig:enveloped:xades"
    case Reporting => "reporting:1.0"
    case Riyal => "SAR"
    case Counter => "ICV"
    case PreviousHash => "PIH"
    case QrCode => "QR"
    case SaudiArabia => "SA"
    case Vat => "VAT"
  }

  function Words(words: seq<Word>): string {
    if words == [] then "" else Spelled(words[0]) + Words(words[1..])
  }

  function Namespace(prefix: string, schema: Schema): string {
    " xmlns" + prefix + "=\"" + Words([UblPrefix, SchemaPrefix]) + SchemaName(schema) + "\""
  }

  function Spaces(n: nat): (s: string)
    ensures |s| == n && forall i :: 0 <= i < n ==> s[i] == ' '
  {
    seq(n, _ => ' ')
  }

  function Printed(p: Piece): string {
    match p
    case Line(indent) => "\n" + Spaces(indent)
    case Declaration => "<?xml " + Given(Version) + " " + Given(Encoding) + "?>"
    case Root =>
      "<" + Name(Invoice) + Namespace("", Invoices) + Namespace(":cac", Aggregates) + Namespace(":cbc", Basics)
      + Namespace(":ext", Extensions) + ">"
    case Open(tag) => "<" + Name(tag) + ">"
    case OpenWith(tag, attribute) => "<" + Name(tag) + " " + Given(attribute) + ">"
    case Close(tag) => "</" + Name(tag) + ">"
    case Text(words) => Words(words)
  }

  function Print(pieces: seq<Piece>): string {
    if pieces == [] then "" else Printed(pieces[0]) + Print(pieces[1..])
  }

  /** An element on a line of its own. */
  function Element(indent: nat, tag: Tag, words: seq<Word>): seq<Piece> {
    [Line(indent), Open(tag), Text(words), Close(tag)]
  }

  // ---- The text holds no underscore, so no token begins in it ----------------------------------

  predicate HasUnderscore(s: string) {
    '_' in s
  }

  lemma AggregateNames(a: Aggregate)
    ensures !HasUnderscore(AggregateName(a))
  {
  }

  lemma BasicNames(b: Basic)
    ensures !HasUnderscore(BasicName(b))
  {
  }

  lemma DetailNames(d: Detail)
    ensures !HasUnderscore(DetailName(d))
  {
  }

  lemma Names(t: Tag)
    ensures !HasUnderscore(Name(t))
  {
    match t
    case Invoice =>
    case UblExtensions =>
    case Cac(a) => AggregateNames(a);
    case Cbc(b) => BasicNames(b);
    case Of(d) => DetailNames(d);
  }

  lemma SchemaNames(s: Schema)
    ensures !HasUnderscore(SchemaName(s))
  {
  }

  lemma Attributes(a: Attribute)
    ensures !HasUnderscore(Given(a))
  {
  }

  lemma SpelledWords(w: Word)
    ensures !HasUnderscore(Spelled(w))
  {
  }

  lemma {:induction false} WordsArePlain(words: seq<Word>)
    ensures !HasUnderscore(Words(words))
  {
    if words != [] {
      SpelledWords(words[0]);
      WordsArePlain(words[1..]);
    }
  }

  lemma NamespaceIsPlain(prefix: string, schema: Schema)
    requires !HasUnderscore(prefix)
    ensures !HasUnderscore(Namespace(prefix, schema))
  {
    WordsArePlain([UblPrefix, SchemaPrefix]);
    SchemaNames(schema);
  }

  lemma RootIsPlain()
    ensures !HasUnderscore(Printed(Root))
  {
    Names(Invoice);
    NamespaceIsPlain("", Invoices);
    NamespaceIsPlain(":cac", Aggregates);
    NamespaceIsPlain(":cbc", Basics);
    NamespaceIsPlain(":ext", Extensions);
  }

  lemma PieceIsPlain(p: Piece)
    ensures !HasUnderscore(Printed(p))
  {
    match p
    case Line(indent) =>
    case Declaration =>
      Attributes(Version);
      Attributes(Encoding);
    case Root => RootIsPlain();
    case Open(tag) => Names(tag);
    case OpenWith(tag, attribute) =>
      Names(tag);
      Attributes(attribute);
    case Close(tag) => Names(tag);
    case Text(words) => WordsArePlain(words);
  }

  lemma {:induction false} PrintIsPlain(pieces: seq<Piece>)
    ensures !HasUnderscore(Print(pieces))
  {
    if pieces != [] {
      PieceIsPlain(pieces[0]);
      PrintIsPlain(pieces[1..]);
    }
  }

  lemma PlainIsFree(s: string)
    requires !HasUnderscore(s)
    ensures IsFree(s)
  {
    forall i: nat | i <= |s| ensures !OccursAt(s, MARK, i) {
      if i + 4 <= |s| {
        assert s[i..i + 4][3] == s[i + 3] && s[i + 3] in s;
      }
    }
  }

  /** Tags and line breaks neither begin nor end with a character of a token. */
  lemma Edges(p: Piece)
    requires !p.Text?
    ensures Printed(p) != "" && !IsTokenChar(Printed(p)[0]) && !IsTokenChar(Printed(p)[|Printed(p)| - 1])
  {
  }

  lemma {:induction false} LastEdge(pieces: seq<Piece>)
    requires pieces != [] && !pieces[|pieces| - 1].Text?
    ensures Print(pieces) != "" && !IsTokenChar(Print(pieces)[|Print(pieces)| - 1])
  {
    if |pieces| == 1 {
      Edges(pieces[0]);
      assert Print(pieces) == Printed(pieces[0]);
    } else {
      LastEdge(pieces[1..]);
    }
  }

  lemma PrintIsGap(pieces: seq<Piece>)
    requires pieces != [] && !pieces[0].Text? && !pieces[|pieces| - 1].Text?
    ensures IsGap(Print(pieces)) && IsHead(Print(pieces))
  {
    PrintIsPlain(pieces);
    PlainIsFree(Print(pieces));
    Edges(pieces[0]);
    LastEdge(pieces);
  }
}
