/** The paths that building and hashing an invoice use: a tag directly below `Invoice`. */
module InvoicePaths {
  import opened XmlTree
  import opened XmlLaws

  const INVOICE := "Invoice"
  const EXTENSIONS := "ext:UBLExtensions"
  const SIGNATURE := "cac:Signature"
  const REFERENCE := "cac:AdditionalDocumentReference"
  const PAYMENT_MEANS := "cac:PaymentMeans"
  const TAX_TOTAL := "cac:TaxTotal"
  const MONETARY_TOTAL := "cac:LegalMonetaryTotal"
  const INVOICE_LINE := "cac:InvoiceLine"

  function Below(tag: string): string {
    INVOICE + "/" + tag
  }

  predicate IsPlainTag(tag: string) {
    '/' !in tag && tag != "" && tag !in FORBIDDEN
  }

  lemma ForbiddenLengths(tag: string)
    requires |tag| != 9 && |tag| != 11
    ensures tag !in FORBIDDEN
  {
  }

  lemma HashTagsArePlain()
    ensures IsPlainTag(INVOICE) && IsPlainTag(EXTENSIONS) && IsPlainTag(SIGNATURE) && IsPlainTag(REFERENCE)
  {
    ForbiddenLengths(INVOICE);
    ForbiddenLengths(EXTENSIONS);
    ForbiddenLengths(SIGNATURE);
    ForbiddenLengths(REFERENCE);
  }

  lemma BuildTagsArePlain()
    ensures IsPlainTag(PAYMENT_MEANS) && IsPlainTag(TAX_TOTAL) && IsPlainTag(MONETARY_TOTAL) && IsPlainTag(INVOICE_LINE)
  {
    ForbiddenLengths(PAYMENT_MEANS);
    ForbiddenLengths(TAX_TOTAL);
    ForbiddenLengths(MONETARY_TOTAL);
    ForbiddenLengths(INVOICE_LINE);
  }

  lemma BelowIsTwoTags(tag: string)
    requires IsPlainTag(tag)
    ensures Split(Below(tag)) == [INVOICE, tag]
    ensures Tags(Below(tag)) == [INVOICE, tag] && Target(Below(tag)) == [INVOICE, tag]
    ensures ParentTags(Below(tag)) == [INVOICE]
    ensures IsClean(Below(tag)) && !IsForbidden(Below(tag))
  {
    HashTagsArePlain();
    var path := Below(tag);
    assert path[|INVOICE|] == '/';
    assert forall i :: 0 <= i < |INVOICE| ==> path[i] == INVOICE[i];
    assert FirstSlash(path) == |INVOICE|;
    assert path[..|INVOICE|] == INVOICE;
    assert path[|INVOICE| + 1..] == tag;
    assert Split(tag) == [tag];
    assert Split(path) == [INVOICE] + Split(tag);
  }
}
