/**
 * The element names of the UBL documents: as text in apps/web/modules/mapping/ubl.ts and
 * apps/validator/src/validator/parsers/ubl.py, as tags in the model, and that the two correspond.
 */
module UblNames {
  import opened XmlText

  datatype Tag =
    | InvoiceRoot | CreditNoteRoot
    | CustomizationID | ProfileID | ID | IssueDate | InvoiceTypeCode | CreditNoteTypeCode | DocumentCurrencyCode
    | TaxCurrencyCode | DueDate | BuyerReference | Note | RegistrationName | CompanyID | IdentificationCode
    | TaxAmount | TaxableAmount | LineExtensionAmount | AllowanceTotalAmount | ChargeTotalAmount
    | TaxExclusiveAmount | TaxInclusiveAmount | PrepaidAmount | PayableAmount | InvoicedQuantity | CreditedQuantity
    | PriceAmount | Percent | Name
    | BillingReference | InvoiceDocumentReference | OrderReference | AccountingSupplierParty
    | AccountingCustomerParty | Party | PostalAddress | Country | PartyTaxScheme | TaxScheme | PartyLegalEntity
    | TaxTotal | TaxSubtotal | TaxCategory | LegalMonetaryTotal | InvoiceLine | CreditNoteLine | Item
    | ClassifiedTaxCategory | Price
    | Other(name: string)

  predicate Known(t: Tag) {
    !t.Other?
  }

  // ---------- The table of names ----------

  /** The qualified names, as the printer writes them and as the parser's paths spell them, in the order of `Before`. */
  const SHORT_NAMES: seq<string> := [
    "cbc:ID", "Invoice", "cac:Item", "cbc:Name", "cbc:Note", "cac:Price", "cac:Party", "CreditNote",
    "cbc:DueDate", "cbc:Percent", "cac:Country", "cac:TaxTotal", "cbc:CompanyID", "cbc:ProfileID",
    "cbc:IssueDate", "cbc:TaxAmount", "cac:TaxScheme", "cbc:PriceAmount", "cac:InvoiceLine", "cac:TaxCategory",
    "cac:TaxSubtotal", "cbc:PrepaidAmount", "cac:PostalAddress", "cbc:TaxableAmount", "cbc:PayableAmount"
  ]

  /** Their tags, position by position. */
  const SHORT_TAGS: seq<Tag> := [
    ID, InvoiceRoot, Item, Name, Note, Price, Party, CreditNoteRoot, DueDate, Percent, Country, TaxTotal,
    CompanyID, ProfileID, IssueDate, TaxAmount, TaxScheme, PriceAmount, InvoiceLine, TaxCategory, TaxSubtotal,
    PrepaidAmount, PostalAddress, TaxableAmount, PayableAmount
  ]

  const LONG_NAMES: seq<string> := [
    "cac:OrderReference", "cac:CreditNoteLine", "cac:PartyTaxScheme", "cbc:BuyerReference",
    "cbc:CustomizationID", "cbc:InvoiceTypeCode", "cbc:TaxCurrencyCode", "cbc:CreditedQuantity",
    "cbc:RegistrationName", "cac:BillingReference", "cac:PartyLegalEntity", "cbc:InvoicedQuantity",
    "cbc:ChargeTotalAmount", "cbc:CreditNoteTypeCode", "cbc:IdentificationCode", "cac:LegalMonetaryTotal",
    "cbc:TaxExclusiveAmount", "cbc:TaxInclusiveAmount", "cbc:LineExtensionAmount", "cbc:DocumentCurrencyCode",
    "cbc:AllowanceTotalAmount", "cac:ClassifiedTaxCategory", "cac:AccountingCustomerParty",
    "cac:AccountingSupplierParty", "cac:InvoiceDocumentReference"
  ]

  const LONG_TAGS: seq<Tag> := [
    OrderReference, CreditNoteLine, PartyTaxScheme, BuyerReference, CustomizationID, InvoiceTypeCode,
    TaxCurrencyCode, CreditedQuantity, RegistrationName, BillingReference, PartyLegalEntity, InvoicedQuantity,
    ChargeTotalAmount, CreditNoteTypeCode, IdentificationCode, LegalMonetaryTotal, TaxExclusiveAmount,
    TaxInclusiveAmount, LineExtensionAmount, DocumentCurrencyCode, AllowanceTotalAmount, ClassifiedTaxCategory,
    AccountingCustomerParty, AccountingSupplierParty, InvoiceDocumentReference
  ]

  const ALL_NAMES: seq<string> := SHORT_NAMES + LONG_NAMES

  const ALL_TAGS: seq<Tag> := SHORT_TAGS + LONG_TAGS

  /** Where an element of a list stands first. */
  function Position<T(==)>(x: T, s: seq<T>): (i: nat)
    requires x in s
    ensures i < |s| && s[i] == x && x !in s[..i]
  {
    if s[0] == x then 0 else 1 + Position(x, s[1..])
  }

  lemma TableIsComplete(t: Tag)
    requires Known(t)
    ensures t in ALL_TAGS
  {
    assert t in SHORT_TAGS || t in LONG_TAGS;
  }

  /** The qualified name of an element. */
  function TagText(t: Tag): string {
    if Known(t) then
      assert t in ALL_TAGS by {
        TableIsComplete(t);
      }
      ALL_NAMES[Position(t, ALL_TAGS)]
    else t.name
  }

  /** The tag of a qualified name. */
  function TagOf(name: string): Tag {
    if name in ALL_NAMES then ALL_TAGS[Position(name, ALL_NAMES)] else Other(name)
  }

  // ---------- No two tags share a name ----------

  /** A character of a name, or its last one. */
  function At(s: string, i: nat): char
    requires s != ""
  {
    if i < |s| then s[i] else s[|s| - 1]
  }

  /** An order of names: by length, then by three characters. */
  predicate Before(s: string, t: string) {
    && s != "" && t != ""
    && (|s| < |t| || (|s| == |t| &&
          (At(s, 6) < At(t, 6) || (At(s, 6) == At(t, 6) &&
             (At(s, 7) < At(t, 7) || (At(s, 7) == At(t, 7) && At(s, 14) < At(t, 14)))))))
  }

  lemma Transitive(a: string, b: string, c: string)
    requires Before(a, b) && Before(b, c)
    ensures Before(a, c)
  {
  }

  lemma ShortNamesAscend(i: nat)
    requires i + 1 < |SHORT_NAMES|
    ensures Before(SHORT_NAMES[i], SHORT_NAMES[i + 1])
  {
  }

  lemma LongNamesAscend(i: nat)
    requires i + 1 < |LONG_NAMES|
    ensures Before(LONG_NAMES[i], LONG_NAMES[i + 1])
  {
  }

  lemma NamesAscend(i: nat)
    requires i + 1 < |ALL_NAMES|
    ensures Before(ALL_NAMES[i], ALL_NAMES[i + 1])
  {
    if i + 1 < |SHORT_NAMES| {
      ShortNamesAscend(i);
    } else if i >= |SHORT_NAMES| {
      LongNamesAscend(i - |SHORT_NAMES|);
    }
    hide Before;
  }

  lemma {:induction false} NamesAreOrdered(i: nat, j: nat)
    requires i < j < |ALL_NAMES|
    ensures Before(ALL_NAMES[i], ALL_NAMES[j])
    decreases j
  {
    hide Before;
    NamesAscend(j - 1);
    if i + 1 < j {
      NamesAreOrdered(i, j - 1);
      Transitive(ALL_NAMES[i], ALL_NAMES[j - 1], ALL_NAMES[j]);
    }
  }

  lemma NamesDiffer(i: nat, j: nat)
    requires i < |ALL_NAMES| && j < |ALL_NAMES| && ALL_NAMES[i] == ALL_NAMES[j]
    ensures i == j
  {
    if i < j {
      NamesAreOrdered(i, j);
    } else if j < i {
      NamesAreOrdered(j, i);
    }
  }

  // ---------- They are names ----------

  lemma ShortNamesFrom0(i: nat, k: nat)
    requires 0 <= i < 14 && k < |SHORT_NAMES[i]|
    ensures IsNameChar(SHORT_NAMES[i][k])
  {
  }

  lemma ShortNamesFrom14(i: nat, k: nat)
    requires 14 <= i < 25 && k < |SHORT_NAMES[i]|
    ensures IsNameChar(SHORT_NAMES[i][k])
  {
  }

  lemma LongNamesFrom0(i: nat, k: nat)
    requires 0 <= i < 8 && k < |LONG_NAMES[i]|
    ensures IsNameChar(LONG_NAMES[i][k])
  {
  }

  lemma LongNamesFrom8(i: nat, k: nat)
    requires 8 <= i < 16 && k < |LONG_NAMES[i]|
    ensures IsNameChar(LONG_NAMES[i][k])
  {
  }

  lemma LongNamesFrom16(i: nat, k: nat)
    requires 16 <= i < 25 && k < |LONG_NAMES[i]|
    ensures IsNameChar(LONG_NAMES[i][k])
  {
  }

  lemma NamesAreNames(i: nat)
    requires i < |ALL_NAMES|
    ensures IsName(ALL_NAMES[i])
  {
    forall k | 0 <= k < |ALL_NAMES[i]| ensures IsNameChar(ALL_NAMES[i][k]) {
      NameChars(i, k);
    }
    if i + 1 < |ALL_NAMES| {
      NamesAscend(i);
    } else {
      NamesAscend(i - 1);
    }
    hide IsNameChar;
  }

  lemma NameChars(i: nat, k: nat)
    requires i < |ALL_NAMES| && k < |ALL_NAMES[i]|
    ensures IsNameChar(ALL_NAMES[i][k])
  {
    hide IsNameChar;
    if i < 14 {
      ShortNamesFrom0(i, k);
    } else if i < |SHORT_NAMES| {
      ShortNamesFrom14(i, k);
    } else if i < |SHORT_NAMES| + 8 {
      LongNamesFrom0(i - |SHORT_NAMES|, k);
    } else if i < |SHORT_NAMES| + 16 {
      LongNamesFrom8(i - |SHORT_NAMES|, k);
    } else {
      LongNamesFrom16(i - |SHORT_NAMES|, k);
    }
  }

  /** A known tag's name reads back as the tag, and is a name. */
  lemma TagOfText(t: Tag)
    requires Known(t)
    ensures TagOf(TagText(t)) == t && IsName(TagText(t))
  {
    TableIsComplete(t);
    var i := Position(t, ALL_TAGS);
    NamesAreNames(i);
    NamesDiffer(i, Position(ALL_NAMES[i], ALL_NAMES));
    hide IsName;
  }

  // ---------- Prefixes ----------

  /** The tags of everything below the document element. */
  predicate Below(t: Tag) {
    Known(t) && !t.InvoiceRoot? && !t.CreditNoteRoot?
  }

  predicate Prefixed(s: string) {
    |s| > 4 && s[0] == 'c' && (s[1] == 'b' || s[1] == 'a') && s[2] == 'c' && s[3] == ':'
  }

  lemma ShortNamesPrefixed(i: nat)
    requires i < |SHORT_NAMES| && i != 1 && i != 7
    ensures Prefixed(SHORT_NAMES[i])
  {
  }

  lemma LongNamesPrefixed(i: nat)
    requires i < |LONG_NAMES|
    ensures Prefixed(LONG_NAMES[i])
  {
  }

  lemma RootsStandAt(i: nat)
    requires i < |SHORT_TAGS|
    ensures SHORT_TAGS[i].InvoiceRoot? <==> i == 1
    ensures SHORT_TAGS[i].CreditNoteRoot? <==> i == 7
  {
  }

  lemma LongTagsAreBelow(i: nat)
    requires i < |LONG_TAGS|
    ensures Below(LONG_TAGS[i])
  {
  }

  /** Where a tag's name stands in the two lists. */
  lemma TextStandsAt(t: Tag) returns (i: nat)
    requires Known(t)
    ensures i < |ALL_NAMES| && TagText(t) == if i < |SHORT_NAMES| then SHORT_NAMES[i] else LONG_NAMES[i - |SHORT_NAMES|]
    ensures t == if i < |SHORT_TAGS| then SHORT_TAGS[i] else LONG_TAGS[i - |SHORT_TAGS|]
  {
    TableIsComplete(t);
    i := Position(t, ALL_TAGS);
    hide Position;
  }

  /** The root names have no prefix, and every other name has one of the two. */
  lemma NamesArePrefixed(t: Tag)
    requires Below(t)
    ensures Prefixed(TagText(t))
  {
    hide Prefixed, TagText;
    var i := TextStandsAt(t);
    if i < |SHORT_NAMES| {
      RootsStandAt(i);
      ShortNamesPrefixed(i);
    } else {
      LongNamesPrefixed(i - |SHORT_NAMES|);
    }
  }

  lemma RootNames()
    ensures TagText(InvoiceRoot) == "Invoice" && TagText(CreditNoteRoot) == "CreditNote"
  {
    hide TagText;
    var i := TextStandsAt(InvoiceRoot);
    var j := TextStandsAt(CreditNoteRoot);
    RootIsShort(InvoiceRoot, i);
    RootIsShort(CreditNoteRoot, j);
    RootsStandAt(i);
    RootsStandAt(j);
  }

  lemma RootIsShort(t: Tag, i: nat)
    requires i < |ALL_TAGS| && !Below(t)
    requires t == if i < |SHORT_TAGS| then SHORT_TAGS[i] else LONG_TAGS[i - |SHORT_TAGS|]
    ensures i < |SHORT_TAGS|
  {
    if i >= |SHORT_TAGS| {
      LongTagsAreBelow(i - |SHORT_TAGS|);
    }
  }
}
