/** The canonical document of apps/web/modules/ingestion/canonical.ts, shared by the extractor, the store and the printer. */
module Canonical {
  import opened Base
  import opened Shapes

  datatype DocType = Invoice | CreditNote | DebitNote | SelfBilled

  datatype Scenario = Standard | ZeroRated | Exempt | ReverseCharge | DesignatedZone | Export

  datatype CanonicalLine = CanonicalLine(
    lineNumber: int, description: Option<string>, quantity: Option<string>, unitCode: Option<string>,
    netAmountMinor: Option<int>, taxCategoryCode: Option<string>, taxRate: Option<string>)

  datatype Header = Header(
    docType: DocType, scenario: Scenario, invoiceNumber: string, issueDate: string, currency: string,
    buyerName: Option<string>, buyerTrn: Option<string>, sellerTrn: Option<string>, predecessorRef: Option<string>,
    lineExtensionMinor: Option<int>, taxAmountMinor: Option<int>, payableMinor: Option<int>,
    hasAllowanceCharge: bool, hasMultiTaxRate: bool)

  datatype CanonicalDoc = CanonicalDoc(header: Header, lines: seq<CanonicalLine>, sourceRef: string)

  datatype DefectClass =
    | TrnInvalid | TrnMissing | TrnUnstructured | DuplicateCustomer | AddressIncomplete | IdentifierInconsistent
    | UnitCodeFreetext | TaxCategoryUnmapped | CurrencyInconsistent | ParseError

  /** A defect tells a shape, never a value. */
  datatype ExtractionDefect = ExtractionDefect(defectClass: DefectClass, sourceRef: string, sampleShape: Option<ValueShape>)
}
