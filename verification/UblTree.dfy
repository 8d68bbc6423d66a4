/**
 * The elements of the UBL documents the web application prints (apps/web/modules/mapping/ubl.ts) and the
 * validator looks for (apps/validator/src/validator/parsers/ubl.py), and the document of a canonical one.
 */
module UblTree {
  import opened Base
  import opened Canonical
  import opened Decimal
  import opened UblNames
  import opened XmlText
  import Money

  const XSD := "urn:oasis:names:specification:" + "ubl:schema:xsd:"
  const CBC_NS := XSD + "CommonBasicComponents-2"
  const CAC_NS := XSD + "CommonAggregateComponents-2"

  // ---------- Trees of tags ----------

  datatype Node = Node(tag: Tag, attrs: seq<Attr>, text: string, kids: seq<Node>)

  function ToXml(n: Node): Xml
    decreases n, 1
  {
    Elem(TagText(n.tag), n.attrs, n.text, ToXmlAll(n.kids))
  }

  function ToXmlAll(kids: seq<Node>): seq<Xml>
    decreases kids, 0
  {
    if kids == [] then [] else [ToXml(kids[0])] + ToXmlAll(kids[1..])
  }

  /** Attributes in no namespace that declare none. */
  predicate PlainAttrs(attrs: seq<Attr>) {
    forall i :: 0 <= i < |attrs| ==> IsName(attrs[i].name) && ':' !in attrs[i].name && attrs[i].name != "xmlns"
  }

  /** A node below the document element. */
  ghost predicate Valid(n: Node)
    decreases n, 1
  {
    Below(n.tag) && PlainAttrs(n.attrs) && AllValid(n.kids)
  }

  ghost predicate AllValid(kids: seq<Node>)
    decreases kids, 0
  {
    kids == [] || (Valid(kids[0]) && AllValid(kids[1..]))
  }

  /** A node as it is read back: line breaks normalised, white space in attributes made spaces. */
  function ReadNode(n: Node): Node
    decreases n, 1
  {
    Node(n.tag, SpacedAttrs(EolAttrs(n.attrs)), Eol(n.text), ReadAll(n.kids))
  }

  function ReadAll(kids: seq<Node>): seq<Node>
    decreases kids, 0
  {
    if kids == [] then [] else [ReadNode(kids[0])] + ReadAll(kids[1..])
  }

  lemma {:induction false} ValidIsWellFormed(n: Node)
    requires Valid(n)
    ensures WellFormed(ToXml(n))
    decreases n, 1
  {
    TagOfText(n.tag);
    AllValidIsWellFormed(n.kids);
    hide TagText, IsName, WellNamed;
  }

  lemma {:induction false} AllValidIsWellFormed(kids: seq<Node>)
    requires AllValid(kids)
    ensures AllWellFormed(ToXmlAll(kids))
    decreases kids, 0
  {
    if kids != [] {
      ValidIsWellFormed(kids[0]);
      AllValidIsWellFormed(kids[1..]);
      assert ([ToXml(kids[0])] + ToXmlAll(kids[1..]))[1..] == ToXmlAll(kids[1..]);
      hide ToXml, WellFormed;
    }
  }

  // ---------- The document ----------

  datatype Context = Context(
    customizationId: string, profileId: string, sellerName: Option<string>, sellerCountry: Option<string>, buyerCountry: Option<string>)

  function Leaf(tag: Tag, text: string): Node {
    Node(tag, [], text, [])
  }

  function Branch(tag: Tag, kids: seq<Node>): Node {
    Node(tag, [], "", kids)
  }

  function OptionalLeaf(tag: Tag, text: Option<string>): seq<Node> {
    if text.Some? then [Leaf(tag, text.value)] else []
  }

  /** The printed amount; the currency is known wherever it is used. */
  function AmountText(minor: int, currency: string): string {
    match Money.MinorToDecimal(minor, currency)
    case Ok(t) => t
    case Err(_) => ""
  }

  function AmountNode(tag: Tag, minor: int, currency: string): Node {
    Node(tag, [Attr("currencyID", currency)], AmountText(minor, currency), [])
  }

  function VatScheme(): Node {
    Branch(TaxScheme, [Leaf(ID, "VAT")])
  }

  function TaxCategoryNode(tag: Tag, code: Option<string>, rate: Option<string>): Node {
    Branch(tag, OptionalLeaf(ID, code) + OptionalLeaf(Percent, rate) + [VatScheme()])
  }

  function PartyKids(name: Option<string>, trn: Option<string>, country: Option<string>): seq<Node> {
    (if country.Some? then [Branch(PostalAddress, [Branch(Country, [Leaf(IdentificationCode, country.value)])])] else [])
    + (if trn.Some? then [Branch(PartyTaxScheme, [Leaf(CompanyID, trn.value), VatScheme()])] else [])
    + (if name.Some? then [Branch(PartyLegalEntity, [Leaf(RegistrationName, name.value)])] else [])
  }

  function PartyNode(tag: Tag, name: Option<string>, trn: Option<string>, country: Option<string>): Node {
    Branch(tag, [Branch(Party, PartyKids(name, trn, country))])
  }

  function TypeCode(t: DocType): string {
    match t
    case Invoice => "380"
    case CreditNote => "381"
    case DebitNote => "383"
    case SelfBilled => "389"
  }

  predicate IsCredit(h: Header) {
    h.docType.CreditNote?
  }

  function TypeCodeTag(h: Header): Tag {
    if IsCredit(h) then CreditNoteTypeCode else InvoiceTypeCode
  }

  function LineTag(h: Header): Tag {
    if IsCredit(h) then CreditNoteLine else InvoiceLine
  }

  function QuantityTag(h: Header): Tag {
    if IsCredit(h) then CreditedQuantity else InvoicedQuantity
  }

  function RootTag(h: Header): Tag {
    if IsCredit(h) then CreditNoteRoot else InvoiceRoot
  }

  function HeadNodes(h: Header, ctx: Context): seq<Node> {
    [Leaf(CustomizationID, ctx.customizationId), Leaf(ProfileID, ctx.profileId), Leaf(ID, h.invoiceNumber),
     Leaf(IssueDate, h.issueDate), Leaf(TypeCodeTag(h), TypeCode(h.docType)), Leaf(DocumentCurrencyCode, h.currency)]
  }

  function BillingNodes(h: Header): seq<Node> {
    if h.predecessorRef.Some?
    then [Branch(BillingReference, [Branch(InvoiceDocumentReference, [Leaf(ID, h.predecessorRef.value)])])] else []
  }

  function PartyNodes(h: Header, ctx: Context): seq<Node> {
    [PartyNode(AccountingSupplierParty, ctx.sellerName, h.sellerTrn, ctx.sellerCountry),
     PartyNode(AccountingCustomerParty, h.buyerName, h.buyerTrn, ctx.buyerCountry)]
  }

  function FirstCategory(lines: seq<CanonicalLine>): Option<string> {
    if lines == [] then None else lines[0].taxCategoryCode
  }

  function FirstRate(lines: seq<CanonicalLine>): Option<string> {
    if lines == [] then None else lines[0].taxRate
  }

  function SubtotalNodes(h: Header, lines: seq<CanonicalLine>): seq<Node> {
    if h.taxAmountMinor.None? || h.lineExtensionMinor.None? then []
    else [Branch(TaxSubtotal, [AmountNode(TaxableAmount, h.lineExtensionMinor.value, h.currency),
                               AmountNode(TaxAmount, h.taxAmountMinor.value, h.currency),
                               TaxCategoryNode(TaxCategory, FirstCategory(lines), FirstRate(lines))])]
  }

  function TaxNodes(h: Header, lines: seq<CanonicalLine>): seq<Node> {
    if h.taxAmountMinor.None? then []
    else [Branch(TaxTotal, [AmountNode(TaxAmount, h.taxAmountMinor.value, h.currency)] + SubtotalNodes(h, lines))]
  }

  function TotalKids(h: Header): seq<Node> {
    (if h.lineExtensionMinor.Some?
     then [AmountNode(LineExtensionAmount, h.lineExtensionMinor.value, h.currency),
           AmountNode(TaxExclusiveAmount, h.lineExtensionMinor.value, h.currency)] else [])
    + (if h.payableMinor.Some?
       then [AmountNode(TaxInclusiveAmount, h.payableMinor.value, h.currency),
             AmountNode(PayableAmount, h.payableMinor.value, h.currency)] else [])
  }

  function TotalNodes(h: Header): seq<Node> {
    if TotalKids(h) == [] then [] else [Branch(LegalMonetaryTotal, TotalKids(h))]
  }

  function IntText(n: int): string {
    if n < 0 then "-" + Numeral(-n) else Numeral(n)
  }

  /** The text is the number's digits, with a hyphen before them for a negative one. */
  lemma IntTextReads(n: int)
    ensures n >= 0 ==> AllDigits(IntText(n)) && IntText(n) != "" && Value(IntText(n)) == n
    ensures n < 0 ==> IntText(n) != "" && IntText(n)[0] == '-' && AllDigits(IntText(n)[1..]) && Value(IntText(n)[1..]) == -n
  {
    assert n < 0 ==> IntText(n)[1..] == Numeral(-n);
  }

  function QuantityNodes(h: Header, l: CanonicalLine): seq<Node> {
    if l.quantity.None? then []
    else [Node(QuantityTag(h), if l.unitCode.Some? then [Attr("unitCode", l.unitCode.value)] else [], l.quantity.value, [])]
  }

  function LineAmountNodes(h: Header, l: CanonicalLine): seq<Node> {
    if l.netAmountMinor.Some? then [AmountNode(LineExtensionAmount, l.netAmountMinor.value, h.currency)] else []
  }

  function ItemKids(l: CanonicalLine): seq<Node> {
    OptionalLeaf(Name, l.description)
    + (if l.taxCategoryCode.Some? || l.taxRate.Some?
       then [TaxCategoryNode(ClassifiedTaxCategory, l.taxCategoryCode, l.taxRate)] else [])
  }

  function ItemNodes(l: CanonicalLine): seq<Node> {
    if ItemKids(l) == [] then [] else [Branch(Item, ItemKids(l))]
  }

  function LineNode(h: Header, l: CanonicalLine): Node {
    Branch(LineTag(h), [Leaf(ID, IntText(l.lineNumber))] + QuantityNodes(h, l) + LineAmountNodes(h, l) + ItemNodes(l))
  }

  function LineNodes(h: Header, lines: seq<CanonicalLine>): seq<Node> {
    if lines == [] then [] else LineNodes(h, lines[..|lines| - 1]) + [LineNode(h, lines[|lines| - 1])]
  }

  function RootAttrs(h: Header): seq<Attr> {
    [Attr("xmlns", XSD + TagText(RootTag(h)) + "-2"),
     Attr("xmlns:cbc", CBC_NS), Attr("xmlns:cac", CAC_NS)]
  }

  function RootKids(doc: CanonicalDoc, ctx: Context): seq<Node> {
    HeadNodes(doc.header, ctx)
    + (BillingNodes(doc.header)
       + (PartyNodes(doc.header, ctx) + (TaxNodes(doc.header, doc.lines) + (TotalNodes(doc.header) + LineNodes(doc.header, doc.lines)))))
  }

  function Document(doc: CanonicalDoc, ctx: Context): Node {
    Node(RootTag(doc.header), RootAttrs(doc.header), "", RootKids(doc, ctx))
  }

  // ---------- The document is printable ----------

  lemma {:induction false} AllValidConcat(a: seq<Node>, b: seq<Node>)
    requires AllValid(a) && AllValid(b)
    ensures AllValid(a + b)
  {
    if a == [] {
      assert a + b == b;
    } else {
      assert (a + b)[1..] == a[1..] + b;
      hide Valid;
      AllValidConcat(a[1..], b);
    }
  }

  lemma AllValidOne(n: Node)
    requires Valid(n)
    ensures AllValid([n])
  {
    assert [n][1..] == [];
    hide Valid;
  }

  lemma {:induction false} EachValid(ns: seq<Node>)
    requires forall i :: 0 <= i < |ns| ==> Valid(ns[i])
    ensures AllValid(ns)
  {
    if ns != [] {
      hide Valid;
      EachValid(ns[1..]);
    }
  }

  lemma LeafValid(tag: Tag, text: string)
    requires Below(tag)
    ensures Valid(Leaf(tag, text)) && AllValid([Leaf(tag, text)])
  {
    AllValidOne(Leaf(tag, text));
  }

  lemma AmountValid(tag: Tag, minor: int, currency: string)
    requires Below(tag)
    ensures Valid(AmountNode(tag, minor, currency)) && AllValid([AmountNode(tag, minor, currency)])
  {
    assert IsName("currencyID");
    AllValidOne(AmountNode(tag, minor, currency));
  }

  lemma BranchValid(tag: Tag, kids: seq<Node>)
    requires Below(tag) && AllValid(kids)
    ensures Valid(Branch(tag, kids)) && AllValid([Branch(tag, kids)])
  {
    AllValidOne(Branch(tag, kids));
  }

  lemma OptionalValid(tag: Tag, text: Option<string>)
    requires Below(tag)
    ensures AllValid(OptionalLeaf(tag, text))
  {
    if text.Some? {
      LeafValid(tag, text.value);
    }
  }

  lemma VatValid()
    ensures Valid(VatScheme()) && AllValid([VatScheme()])
  {
    LeafValid(ID, "VAT");
    BranchValid(TaxScheme, [Leaf(ID, "VAT")]);
  }

  lemma CategoryValid(tag: Tag, code: Option<string>, rate: Option<string>)
    requires Below(tag)
    ensures Valid(TaxCategoryNode(tag, code, rate)) && AllValid([TaxCategoryNode(tag, code, rate)])
  {
    OptionalValid(ID, code);
    OptionalValid(Percent, rate);
    VatValid();
    AllValidConcat(OptionalLeaf(ID, code), OptionalLeaf(Percent, rate));
    AllValidConcat(OptionalLeaf(ID, code) + OptionalLeaf(Percent, rate), [VatScheme()]);
    hide OptionalLeaf, VatScheme, Valid, AllValid;
    BranchValid(tag, OptionalLeaf(ID, code) + OptionalLeaf(Percent, rate) + [VatScheme()]);
  }

  lemma AddressValid(country: string)
    ensures AllValid([Branch(PostalAddress, [Branch(Country, [Leaf(IdentificationCode, country)])])])
  {
    hide Valid, AllValid, Branch, Leaf;
    LeafValid(IdentificationCode, country);
    BranchValid(Country, [Leaf(IdentificationCode, country)]);
    BranchValid(PostalAddress, [Branch(Country, [Leaf(IdentificationCode, country)])]);
  }

  lemma TaxSchemeValid(trn: string)
    ensures AllValid([Branch(PartyTaxScheme, [Leaf(CompanyID, trn), VatScheme()])])
  {
    hide Valid, AllValid, Branch, Leaf, VatScheme;
    LeafValid(CompanyID, trn);
    VatValid();
    PairValid(Leaf(CompanyID, trn), VatScheme());
    BranchValid(PartyTaxScheme, [Leaf(CompanyID, trn), VatScheme()]);
  }

  lemma LegalEntityValid(name: string)
    ensures AllValid([Branch(PartyLegalEntity, [Leaf(RegistrationName, name)])])
  {
    hide Valid, AllValid, Branch, Leaf;
    LeafValid(RegistrationName, name);
    BranchValid(PartyLegalEntity, [Leaf(RegistrationName, name)]);
  }

  lemma PartyKidsValid(name: Option<string>, trn: Option<string>, country: Option<string>)
    ensures AllValid(PartyKids(name, trn, country))
  {
    var a: seq<Node> := if country.Some? then [Branch(PostalAddress, [Branch(Country, [Leaf(IdentificationCode, country.value)])])] else [];
    var b: seq<Node> := if trn.Some? then [Branch(PartyTaxScheme, [Leaf(CompanyID, trn.value), VatScheme()])] else [];
    var c: seq<Node> := if name.Some? then [Branch(PartyLegalEntity, [Leaf(RegistrationName, name.value)])] else [];
    EachValid([]);
    hide Valid, AllValid, Branch, Leaf, VatScheme;
    if country.Some? {
      AddressValid(country.value);
    }
    if trn.Some? {
      TaxSchemeValid(trn.value);
    }
    if name.Some? {
      LegalEntityValid(name.value);
    }
    AllValidConcat(a, b);
    AllValidConcat(a + b, c);
  }

  lemma PartyValid(tag: Tag, name: Option<string>, trn: Option<string>, country: Option<string>)
    requires Below(tag)
    ensures AllValid([PartyNode(tag, name, trn, country)])
  {
    PartyKidsValid(name, trn, country);
    hide AllValid, Valid, PartyKids, Branch;
    BranchValid(Party, PartyKids(name, trn, country));
    BranchValid(tag, [Branch(Party, PartyKids(name, trn, country))]);
  }

  lemma PairValid(a: Node, b: Node)
    requires AllValid([a]) && AllValid([b])
    ensures AllValid([a, b])
  {
    AllValidConcat([a], [b]);
    assert [a] + [b] == [a, b];
    hide AllValid;
  }

  lemma SubtotalValid(h: Header, lines: seq<CanonicalLine>)
    ensures AllValid(SubtotalNodes(h, lines))
  {
    if h.taxAmountMinor.Some? && h.lineExtensionMinor.Some? {
      hide Valid, AllValid, AmountNode, TaxCategoryNode, Branch;
      AmountValid(TaxAmount, h.taxAmountMinor.value, h.currency);
      AmountValid(TaxableAmount, h.lineExtensionMinor.value, h.currency);
      CategoryValid(TaxCategory, FirstCategory(lines), FirstRate(lines));
      var kids := [AmountNode(TaxableAmount, h.lineExtensionMinor.value, h.currency),
                   AmountNode(TaxAmount, h.taxAmountMinor.value, h.currency),
                   TaxCategoryNode(TaxCategory, FirstCategory(lines), FirstRate(lines))];
      EachValid(kids);
      BranchValid(TaxSubtotal, kids);
    }
  }

  lemma TaxValid(h: Header, lines: seq<CanonicalLine>)
    ensures AllValid(TaxNodes(h, lines))
  {
    if h.taxAmountMinor.Some? {
      hide Valid, AllValid, AmountNode, SubtotalNodes, Branch;
      AmountValid(TaxAmount, h.taxAmountMinor.value, h.currency);
      SubtotalValid(h, lines);
      var kids := [AmountNode(TaxAmount, h.taxAmountMinor.value, h.currency)] + SubtotalNodes(h, lines);
      AllValidConcat([AmountNode(TaxAmount, h.taxAmountMinor.value, h.currency)], SubtotalNodes(h, lines));
      BranchValid(TaxTotal, kids);
    }
  }

  lemma TotalsValid(h: Header)
    ensures AllValid(TotalNodes(h))
  {
    hide Valid, AmountNode, Branch;
    var a: seq<Node> := if h.lineExtensionMinor.Some?
                        then [AmountNode(LineExtensionAmount, h.lineExtensionMinor.value, h.currency),
                              AmountNode(TaxExclusiveAmount, h.lineExtensionMinor.value, h.currency)] else [];
    var b: seq<Node> := if h.payableMinor.Some?
                        then [AmountNode(TaxInclusiveAmount, h.payableMinor.value, h.currency),
                              AmountNode(PayableAmount, h.payableMinor.value, h.currency)] else [];
    if h.lineExtensionMinor.Some? {
      AmountValid(LineExtensionAmount, h.lineExtensionMinor.value, h.currency);
      AmountValid(TaxExclusiveAmount, h.lineExtensionMinor.value, h.currency);
      PairValid(AmountNode(LineExtensionAmount, h.lineExtensionMinor.value, h.currency),
                AmountNode(TaxExclusiveAmount, h.lineExtensionMinor.value, h.currency));
    }
    if h.payableMinor.Some? {
      AmountValid(TaxInclusiveAmount, h.payableMinor.value, h.currency);
      AmountValid(PayableAmount, h.payableMinor.value, h.currency);
      PairValid(AmountNode(TaxInclusiveAmount, h.payableMinor.value, h.currency),
                AmountNode(PayableAmount, h.payableMinor.value, h.currency));
    }
    assert AllValid(a) && AllValid(b);
    AllValidConcat(a, b);
    assert TotalKids(h) == a + b;
    BranchValid(LegalMonetaryTotal, TotalKids(h));
  }

  lemma ItemValid(l: CanonicalLine)
    ensures AllValid(ItemNodes(l))
  {
    OptionalValid(Name, l.description);
    hide Valid, TaxCategoryNode, Branch, OptionalLeaf;
    CategoryValid(ClassifiedTaxCategory, l.taxCategoryCode, l.taxRate);
    var b: seq<Node> := if l.taxCategoryCode.Some? || l.taxRate.Some?
                        then [TaxCategoryNode(ClassifiedTaxCategory, l.taxCategoryCode, l.taxRate)] else [];
    assert AllValid(b);
    AllValidConcat(OptionalLeaf(Name, l.description), b);
    assert ItemKids(l) == OptionalLeaf(Name, l.description) + b;
    BranchValid(Item, ItemKids(l));
  }

  lemma QuantityValid(h: Header, l: CanonicalLine)
    ensures AllValid(QuantityNodes(h, l))
  {
    if l.quantity.Some? {
      assert IsName("unitCode");
      AllValidOne(QuantityNodes(h, l)[0]);
    }
  }

  lemma LineAmountValid(h: Header, l: CanonicalLine)
    ensures AllValid(LineAmountNodes(h, l))
  {
    if l.netAmountMinor.Some? {
      AmountValid(LineExtensionAmount, l.netAmountMinor.value, h.currency);
    }
  }

  lemma LineValid(h: Header, l: CanonicalLine)
    ensures AllValid([LineNode(h, l)])
  {
    hide Valid, AllValid, QuantityNodes, LineAmountNodes, ItemNodes, Leaf, IntText;
    LeafValid(ID, IntText(l.lineNumber));
    QuantityValid(h, l);
    LineAmountValid(h, l);
    ItemValid(l);
    var id, q, a, i := [Leaf(ID, IntText(l.lineNumber))], QuantityNodes(h, l), LineAmountNodes(h, l), ItemNodes(l);
    AllValidConcat(id, q);
    AllValidConcat(id + q, a);
    AllValidConcat(id + q + a, i);
    BranchValid(LineTag(h), id + q + a + i);
  }

  lemma {:induction false} LinesValid(h: Header, lines: seq<CanonicalLine>)
    ensures AllValid(LineNodes(h, lines))
  {
    if lines != [] {
      LinesValid(h, lines[..|lines| - 1]);
      LineValid(h, lines[|lines| - 1]);
      hide LineNode, AllValid;
      AllValidConcat(LineNodes(h, lines[..|lines| - 1]), [LineNode(h, lines[|lines| - 1])]);
    }
  }

  lemma HeadValid(h: Header, ctx: Context)
    ensures AllValid(HeadNodes(h, ctx))
  {
    hide Valid, AllValid, Leaf;
    LeafValid(CustomizationID, ctx.customizationId);
    LeafValid(ProfileID, ctx.profileId);
    LeafValid(ID, h.invoiceNumber);
    LeafValid(IssueDate, h.issueDate);
    LeafValid(TypeCodeTag(h), TypeCode(h.docType));
    LeafValid(DocumentCurrencyCode, h.currency);
    EachValid(HeadNodes(h, ctx));
  }

  lemma BillingValid(h: Header)
    ensures AllValid(BillingNodes(h))
  {
    if h.predecessorRef.Some? {
      LeafValid(ID, h.predecessorRef.value);
      hide Valid;
      BranchValid(InvoiceDocumentReference, [Leaf(ID, h.predecessorRef.value)]);
      BranchValid(BillingReference, [Branch(InvoiceDocumentReference, [Leaf(ID, h.predecessorRef.value)])]);
    }
  }

  lemma RootAttrsNamed(h: Header)
    ensures WellNamed(RootAttrs(h))
  {
    assert IsName("xmlns") && IsName("xmlns:cbc") && IsName("xmlns:cac");
    hide IsName, TagText;
  }

  /** Below its root, the document of a canonical one is made of the known names only; and it is well formed. */
  lemma DocumentValid(doc: CanonicalDoc, ctx: Context)
    ensures AllValid(RootKids(doc, ctx)) && WellFormed(ToXml(Document(doc, ctx)))
  {
    var h := doc.header;
    HeadValid(h, ctx);
    BillingValid(h);
    PartyValid(AccountingSupplierParty, ctx.sellerName, h.sellerTrn, ctx.sellerCountry);
    PartyValid(AccountingCustomerParty, h.buyerName, h.buyerTrn, ctx.buyerCountry);
    PairValid(PartyNodes(h, ctx)[0], PartyNodes(h, ctx)[1]);
    TaxValid(h, doc.lines);
    TotalsValid(h);
    LinesValid(h, doc.lines);
    RootAttrsNamed(h);
    TagOfText(RootTag(h));
    hide HeadNodes, BillingNodes, TaxNodes, TotalNodes, LineNodes, PartyNode, AllValid, WellNamed, RootAttrs, TagOf, TagText, IsName;
    var tail4 := TotalNodes(h) + LineNodes(h, doc.lines);
    AllValidConcat(TotalNodes(h), LineNodes(h, doc.lines));
    AllValidConcat(TaxNodes(h, doc.lines), tail4);
    AllValidConcat(PartyNodes(h, ctx), TaxNodes(h, doc.lines) + tail4);
    AllValidConcat(BillingNodes(h), PartyNodes(h, ctx) + (TaxNodes(h, doc.lines) + tail4));
    AllValidConcat(HeadNodes(h, ctx), BillingNodes(h) + (PartyNodes(h, ctx) + (TaxNodes(h, doc.lines) + tail4)));
    AllValidIsWellFormed(RootKids(doc, ctx));
  }
}
