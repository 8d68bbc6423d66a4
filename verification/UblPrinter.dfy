/** `toUbl` (apps/web/modules/mapping/ubl.ts): text pushed piece by piece, against the tree it prints. */
module UblPrinter {
  import opened Base
  import opened Canonical
  import opened UblNames
  import opened UblTree
  import opened XmlText
  import JsText
  import Money

  datatype UblError = MissingSpecIdentifiers | UnknownCurrency

  // ---------- The text of a tree ----------

  function Text(n: Node): string {
    Print(ToXml(n))
  }

  function TextAll(kids: seq<Node>): string {
    PrintAll(ToXmlAll(kids))
  }

  /** `el(name, value, attrs)`. */
  function El(name: string, value: string, attrs: string): string {
    "<" + (name + (attrs + ">")) + (EscapeXml(value) + ("</" + (name + ">")))
  }

  lemma ElIsText(n: Node)
    requires n.kids == []
    ensures El(TagText(n.tag), n.text, PrintAttrs(n.attrs)) == Text(n)
  {
    EscapeIsOnePass(n.text);
    assert PrintAll(ToXmlAll(n.kids)) == "";
    hide TagText, EscapeXml, Escape, PrintAttrs, PrintAll, ToXmlAll;
    assert "" + CloseTag(TagText(n.tag)) == CloseTag(TagText(n.tag));
  }

  lemma LeafText(tag: Tag, value: string)
    ensures El(TagText(tag), value, "") == Text(Leaf(tag, value))
  {
    ElIsText(Leaf(tag, value));
    hide El, TagText;
  }

  lemma BranchText(tag: Tag, kids: seq<Node>)
    ensures Text(Branch(tag, kids)) == "<" + (TagText(tag) + ">") + (TextAll(kids) + ("</" + (TagText(tag) + ">")))
  {
    hide TagText;
    var n := ToXml(Branch(tag, kids));
    assert PrintAttrs(n.attrs) + ">" == ">" && Escape("") == "";
    hide PrintAttrs, Escape, PrintAll;
    var rest := PrintAll(n.kids) + CloseTag(n.name);
    assert "" + rest == rest;
  }

  lemma {:induction false} TextAllConcat(a: seq<Node>, b: seq<Node>)
    ensures TextAll(a + b) == TextAll(a) + TextAll(b)
  {
    if a == [] {
      assert a + b == b && TextAll(a) == "";
    } else {
      TextAllCons(a[0], a[1..]);
      TextAllCons(a[0], a[1..] + b);
      assert a == [a[0]] + a[1..] && a + b == [a[0]] + (a[1..] + b);
      TextAllConcat(a[1..], b);
      hide TextAll, Text;
      Assoc(Text(a[0]), TextAll(a[1..]), TextAll(b));
    }
  }

  lemma TextAllCons(n: Node, more: seq<Node>)
    ensures TextAll([n] + more) == Text(n) + TextAll(more)
  {
    assert ([n] + more)[1..] == more;
    PrintAllCons(ToXml(n), ToXmlAll(more));
    hide ToXml, Print, PrintAll;
  }

  lemma TextAllOne(n: Node)
    ensures TextAll([n]) == Text(n)
  {
    TextAllCons(n, []);
    assert [n] + [] == [n] && TextAll([]) == "";
    hide TextAll, Text;
    assert Text(n) + "" == Text(n);
  }

  // ---------- Pushing and joining ----------

  /** `parts.join('')`. */
  function Join(parts: seq<string>): string {
    if parts == [] then "" else Join(parts[..|parts| - 1]) + parts[|parts| - 1]
  }

  lemma Push(parts: seq<string>, part: string)
    ensures Join(parts + [part]) == Join(parts) + part
  {
    assert (parts + [part])[..|parts|] == parts;
  }

  lemma PushNode(parts: seq<string>, kids: seq<Node>, n: Node)
    requires Join(parts) == TextAll(kids)
    ensures Join(parts + [Text(n)]) == TextAll(kids + [n])
  {
    Push(parts, Text(n));
    TextAllConcat(kids, [n]);
    TextAllOne(n);
    hide Join, TextAll, Text;
  }

  /** `amount(name, minor, currency)`; it throws for a currency without a known exponent. */
  function Amount(tag: Tag, minor: int, currency: string): Result<string, UblError> {
    match Money.MinorToDecimal(minor, currency)
    case Err(_) => Err(UnknownCurrency)
    case Ok(t) => Ok(El(TagText(tag), t, " currencyID=\"" + EscapeXml(currency) + "\""))
  }

  predicate KnownCurrency(currency: string) {
    Money.MinorUnitExponent(currency).Ok?
  }

  lemma CurrencyAttr(currency: string)
    ensures " currencyID=\"" + EscapeXml(currency) + "\"" == PrintAttrs([Attr("currencyID", currency)])
  {
    EscapeIsOnePass(currency);
    OneAttr("currencyID", currency);
    hide Escape, EscapeXml, PrintAttrs;
    assert " currencyID=\"" == " " + ("currencyID" + "=\"");
  }

  lemma OneAttr(name: string, value: string)
    ensures PrintAttrs([Attr(name, value)]) == " " + (name + "=\"") + Escape(value) + "\""
  {
    var a := Attr(name, value);
    assert [a][1..] == [];
    assert PrintAttr(a) + "" == PrintAttr(a);
    hide Escape;
    assert PrintAttr(a) == " " + (name + "=\"") + Escape(value) + "\"";
  }

  lemma AmountIsText(tag: Tag, minor: int, currency: string)
    ensures Amount(tag, minor, currency) == if KnownCurrency(currency) then Ok(Text(AmountNode(tag, minor, currency))) else Err(UnknownCurrency)
  {
    CurrencyAttr(currency);
    hide EscapeXml, PrintAttrs;
    ElIsText(AmountNode(tag, minor, currency));
    hide El, Text, TagText, Money.MinorText;
  }

  // ---------- The pieces ----------

  /** An element around joined parts. */
  function Wrap(tag: Tag, inner: string): string {
    "<" + (TagText(tag) + ">") + (inner + ("</" + (TagText(tag) + ">")))
  }

  lemma WrapText(tag: Tag, parts: seq<string>, kids: seq<Node>)
    requires Join(parts) == TextAll(kids)
    ensures Wrap(tag, Join(parts)) == Text(Branch(tag, kids))
  {
    BranchText(tag, kids);
    hide Text, TextAll, TagText, Join;
  }

  lemma WrapOne(tag: Tag, n: Node)
    ensures Wrap(tag, Text(n)) == Text(Branch(tag, [n]))
  {
    BranchText(tag, [n]);
    TextAllOne(n);
    hide Text, TextAll, TagText;
  }

  lemma WrapLeaf(outer: Tag, tag: Tag, value: string)
    ensures Wrap(outer, El(TagText(tag), value, "")) == Text(Branch(outer, [Leaf(tag, value)]))
  {
    LeafText(tag, value);
    WrapOne(outer, Leaf(tag, value));
    hide Text, Wrap, El, TagText;
  }

  /** The tax scheme that is always VAT. */
  function VatPart(): string {
    Wrap(TaxScheme, El(TagText(ID), "VAT", ""))
  }

  lemma VatText()
    ensures VatPart() == Text(VatScheme())
  {
    WrapLeaf(TaxScheme, ID, "VAT");
    hide Text, Wrap, El, TagText;
  }

  /** `taxCategory`. */
  method TaxCategoryPart(tag: Tag, code: Option<string>, rate: Option<string>) returns (text: string)
    ensures text == Text(TaxCategoryNode(tag, code, rate))
  {
    hide Text, TextAll, TagText, EscapeXml, El, Wrap, Join;
    var parts: seq<string> := [];
    ghost var kids: seq<Node> := [];
    NothingPushed();
    if code.Some? {
      LeafText(ID, code.value);
      PushNode(parts, kids, Leaf(ID, code.value));
      parts, kids := parts + [El(TagText(ID), code.value, "")], kids + [Leaf(ID, code.value)];
    }
    if rate.Some? {
      LeafText(Percent, rate.value);
      PushNode(parts, kids, Leaf(Percent, rate.value));
      parts, kids := parts + [El(TagText(Percent), rate.value, "")], kids + [Leaf(Percent, rate.value)];
    }
    VatText();
    PushNode(parts, kids, VatScheme());
    parts, kids := parts + [VatPart()], kids + [VatScheme()];
    assert kids == OptionalLeaf(ID, code) + OptionalLeaf(Percent, rate) + [VatScheme()];
    WrapText(tag, parts, kids);
    return Wrap(tag, Join(parts));
  }

  lemma NothingPushed()
    ensures Join([]) == TextAll([])
  {
  }

  lemma WrapTwo(tag: Tag, a: Node, b: Node)
    ensures Wrap(tag, Text(a) + Text(b)) == Text(Branch(tag, [a, b]))
  {
    BranchText(tag, [a, b]);
    TextAllCons(a, [b]);
    TextAllOne(b);
    assert [a] + [b] == [a, b];
    hide Text, TextAll, TagText;
  }

  /** `party`. */
  method PartyPart(tag: Tag, name: Option<string>, trn: Option<string>, country: Option<string>) returns (text: string)
    ensures text == Text(PartyNode(tag, name, trn, country))
  {
    hide Text, TextAll, TagText, EscapeXml, El, Wrap, Join;
    var inner: seq<string> := [];
    ghost var kids: seq<Node> := [];
    NothingPushed();
    if country.Some? {
      ghost var address := Branch(PostalAddress, [Branch(Country, [Leaf(IdentificationCode, country.value)])]);
      WrapLeaf(Country, IdentificationCode, country.value);
      WrapOne(PostalAddress, Branch(Country, [Leaf(IdentificationCode, country.value)]));
      PushNode(inner, kids, address);
      inner := inner + [Wrap(PostalAddress, Wrap(Country, El(TagText(IdentificationCode), country.value, "")))];
      kids := kids + [address];
    }
    if trn.Some? {
      ghost var scheme := Branch(PartyTaxScheme, [Leaf(CompanyID, trn.value), VatScheme()]);
      LeafText(CompanyID, trn.value);
      VatText();
      WrapTwo(PartyTaxScheme, Leaf(CompanyID, trn.value), VatScheme());
      PushNode(inner, kids, scheme);
      inner := inner + [Wrap(PartyTaxScheme, El(TagText(CompanyID), trn.value, "")
                                             + VatPart())];
      kids := kids + [scheme];
    }
    if name.Some? {
      ghost var entity := Branch(PartyLegalEntity, [Leaf(RegistrationName, name.value)]);
      WrapLeaf(PartyLegalEntity, RegistrationName, name.value);
      PushNode(inner, kids, entity);
      inner := inner + [Wrap(PartyLegalEntity, El(TagText(RegistrationName), name.value, ""))];
      kids := kids + [entity];
    }
    assert kids == PartyKids(name, trn, country);
    WrapText(Party, inner, kids);
    WrapOne(tag, Branch(Party, kids));
    return Wrap(tag, Wrap(Party, Join(inner)));
  }

  /** The tax total, when there is a tax amount. */
  method TaxPart(h: Header, lines: seq<CanonicalLine>) returns (r: Result<seq<string>, UblError>)
    ensures h.taxAmountMinor.None? ==> r == Ok([])
    ensures h.taxAmountMinor.Some? && !KnownCurrency(h.currency) ==> r == Err(UnknownCurrency)
    ensures h.taxAmountMinor.Some? && KnownCurrency(h.currency) ==> r.Ok? && Join(r.value) == TextAll(TaxNodes(h, lines))
  {
    hide Text, TextAll, TagText, EscapeXml, El, Wrap, Join, AmountNode, Amount, KnownCurrency;
    if h.taxAmountMinor.None? {
      return Ok([]);
    }
    AmountIsText(TaxAmount, h.taxAmountMinor.value, h.currency);
    var tax := Amount(TaxAmount, h.taxAmountMinor.value, h.currency);
    if tax.Err? {
      return Err(UnknownCurrency);
    }
    var subtotal := "";
    ghost var taxNode := AmountNode(TaxAmount, h.taxAmountMinor.value, h.currency);
    if h.lineExtensionMinor.Some? {
      AmountIsText(TaxableAmount, h.lineExtensionMinor.value, h.currency);
      var taxable := Amount(TaxableAmount, h.lineExtensionMinor.value, h.currency);
      var category := TaxCategoryPart(TaxCategory, FirstCategory(lines), FirstRate(lines));
      ghost var sub := SubtotalNodes(h, lines)[0];
      WrapThree(TaxSubtotal, AmountNode(TaxableAmount, h.lineExtensionMinor.value, h.currency), taxNode,
                TaxCategoryNode(TaxCategory, FirstCategory(lines), FirstRate(lines)));
      subtotal := Wrap(TaxSubtotal, taxable.value + tax.value + category);
      WrapTwo(TaxTotal, taxNode, sub);
      assert [taxNode] + SubtotalNodes(h, lines) == [taxNode, sub];
    } else {
      WrapOne(TaxTotal, taxNode);
      assert tax.value + "" == tax.value && [taxNode] + SubtotalNodes(h, lines) == [taxNode];
    }
    TextAllOne(TaxNodes(h, lines)[0]);
    JoinOne(Wrap(TaxTotal, tax.value + subtotal));
    return Ok([Wrap(TaxTotal, tax.value + subtotal)]);
  }

  lemma JoinOne(part: string)
    ensures Join([part]) == part
  {
    assert [part][..0] == [] && Join([]) == "";
  }

  lemma WrapThree(tag: Tag, a: Node, b: Node, c: Node)
    ensures Wrap(tag, Text(a) + Text(b) + Text(c)) == Text(Branch(tag, [a, b, c]))
  {
    BranchText(tag, [a, b, c]);
    TextAllCons(a, [b, c]);
    TextAllCons(b, [c]);
    TextAllOne(c);
    assert [a] + [b, c] == [a, b, c] && [b] + [c] == [b, c];
    hide Text, TextAll, TagText;
    Assoc(Text(a), Text(b), Text(c));
  }

  /** The monetary totals, when there are any. */
  method TotalsPart(h: Header) returns (r: Result<seq<string>, UblError>)
    ensures h.lineExtensionMinor.None? && h.payableMinor.None? ==> r.Ok?
    ensures (h.lineExtensionMinor.Some? || h.payableMinor.Some?) && !KnownCurrency(h.currency) ==> r == Err(UnknownCurrency)
    ensures KnownCurrency(h.currency) ==> r.Ok?
    ensures r.Ok? ==> Join(r.value) == TextAll(TotalNodes(h))
  {
    hide Text, TextAll, TagText, EscapeXml, El, Wrap, Join, AmountNode, Amount, KnownCurrency;
    var totals: seq<string> := [];
    ghost var kids: seq<Node> := [];
    NothingPushed();
    if h.lineExtensionMinor.Some? {
      ghost var a := AmountNode(LineExtensionAmount, h.lineExtensionMinor.value, h.currency);
      ghost var b := AmountNode(TaxExclusiveAmount, h.lineExtensionMinor.value, h.currency);
      AmountIsText(LineExtensionAmount, h.lineExtensionMinor.value, h.currency);
      AmountIsText(TaxExclusiveAmount, h.lineExtensionMinor.value, h.currency);
      var extension := Amount(LineExtensionAmount, h.lineExtensionMinor.value, h.currency);
      var exclusive := Amount(TaxExclusiveAmount, h.lineExtensionMinor.value, h.currency);
      if extension.Err? || exclusive.Err? {
        return Err(UnknownCurrency);
      }
      PushNode(totals, kids, a);
      PushNode(totals + [extension.value], kids + [a], b);
      totals, kids := totals + [extension.value] + [exclusive.value], kids + [a] + [b];
    }
    if h.payableMinor.Some? {
      ghost var a := AmountNode(TaxInclusiveAmount, h.payableMinor.value, h.currency);
      ghost var b := AmountNode(PayableAmount, h.payableMinor.value, h.currency);
      AmountIsText(TaxInclusiveAmount, h.payableMinor.value, h.currency);
      AmountIsText(PayableAmount, h.payableMinor.value, h.currency);
      var inclusive := Amount(TaxInclusiveAmount, h.payableMinor.value, h.currency);
      var payable := Amount(PayableAmount, h.payableMinor.value, h.currency);
      if inclusive.Err? || payable.Err? {
        return Err(UnknownCurrency);
      }
      PushNode(totals, kids, a);
      PushNode(totals + [inclusive.value], kids + [a], b);
      totals, kids := totals + [inclusive.value] + [payable.value], kids + [a] + [b];
    }
    assert kids == TotalKids(h) && |kids| == |totals|;
    if |totals| > 0 {
      WrapText(LegalMonetaryTotal, totals, kids);
      TextAllOne(Branch(LegalMonetaryTotal, kids));
      JoinOne(Wrap(LegalMonetaryTotal, Join(totals)));
      return Ok([Wrap(LegalMonetaryTotal, Join(totals))]);
    }
    return Ok([]);
  }

  lemma QuantityText(h: Header, l: CanonicalLine)
    requires l.quantity.Some?
    ensures El(TagText(QuantityTag(h)), l.quantity.value,
               if l.unitCode.None? then "" else " unitCode=\"" + EscapeXml(l.unitCode.value) + "\"")
            == Text(QuantityNodes(h, l)[0])
  {
    hide Escape, EscapeXml, El, Text, TagText;
    ElIsText(QuantityNodes(h, l)[0]);
    assert PrintAttrs([]) == "";
    hide PrintAttrs;
    if l.unitCode.Some? {
      EscapeIsOnePass(l.unitCode.value);
      OneAttr("unitCode", l.unitCode.value);
      assert " unitCode=\"" == " " + ("unitCode" + "=\"");
    }
  }

  /** The item of a line, when there is anything to say about it. */
  method ItemPart(l: CanonicalLine) returns (parts: seq<string>)
    ensures Join(parts) == TextAll(ItemNodes(l))
  {
    hide Text, TextAll, TagText, EscapeXml, El, Wrap, Join, TaxCategoryNode, Leaf;
    var item: seq<string> := [];
    ghost var kids: seq<Node> := [];
    NothingPushed();
    if l.description.Some? {
      LeafText(Name, l.description.value);
      PushNode(item, kids, Leaf(Name, l.description.value));
      item, kids := item + [El(TagText(Name), l.description.value, "")], kids + [Leaf(Name, l.description.value)];
    }
    if l.taxCategoryCode.Some? || l.taxRate.Some? {
      var category := TaxCategoryPart(ClassifiedTaxCategory, l.taxCategoryCode, l.taxRate);
      PushNode(item, kids, TaxCategoryNode(ClassifiedTaxCategory, l.taxCategoryCode, l.taxRate));
      item, kids := item + [category], kids + [TaxCategoryNode(ClassifiedTaxCategory, l.taxCategoryCode, l.taxRate)];
    }
    assert kids == ItemKids(l) && |kids| == |item|;
    if |item| > 0 {
      WrapText(Item, item, kids);
      TextAllOne(Branch(Item, kids));
      JoinOne(Wrap(Item, Join(item)));
      return [Wrap(Item, Join(item))];
    }
    return [];
  }

  lemma {:induction false} JoinConcat(a: seq<string>, b: seq<string>)
    ensures Join(a + b) == Join(a) + Join(b)
  {
    if b == [] {
      assert a + b == a;
    } else {
      var front, last := b[..|b| - 1], b[|b| - 1];
      assert (a + b)[..|a + b| - 1] == a + front;
      JoinConcat(a, front);
    }
  }

  lemma PushAll(parts: seq<string>, kids: seq<Node>, more: seq<string>, nodes: seq<Node>)
    requires Join(parts) == TextAll(kids) && Join(more) == TextAll(nodes)
    ensures Join(parts + more) == TextAll(kids + nodes)
  {
    JoinConcat(parts, more);
    TextAllConcat(kids, nodes);
    hide Join, TextAll;
  }

  /** One line. */
  method LinePart(h: Header, l: CanonicalLine) returns (r: Result<string, UblError>)
    ensures l.netAmountMinor.Some? && !KnownCurrency(h.currency) ==> r == Err(UnknownCurrency)
    ensures l.netAmountMinor.None? || KnownCurrency(h.currency) ==> r == Ok(Text(LineNode(h, l)))
  {
    hide Text, TextAll, TagText, EscapeXml, El, Wrap, Join, TaxCategoryNode, Leaf, AmountNode, Amount, KnownCurrency, QuantityTag, LineTag, ItemNodes;
    var parts: seq<string> := [];
    ghost var kids: seq<Node> := [];
    NothingPushed();
    LeafText(ID, IntText(l.lineNumber));
    PushNode(parts, kids, Leaf(ID, IntText(l.lineNumber)));
    parts, kids := parts + [El(TagText(ID), IntText(l.lineNumber), "")], kids + [Leaf(ID, IntText(l.lineNumber))];
    if l.quantity.Some? {
      QuantityText(h, l);
      PushNode(parts, kids, QuantityNodes(h, l)[0]);
      var unit := if l.unitCode.None? then "" else " unitCode=\"" + EscapeXml(l.unitCode.value) + "\"";
      parts, kids := parts + [El(TagText(QuantityTag(h)), l.quantity.value, unit)], kids + QuantityNodes(h, l);
    }
    if l.netAmountMinor.Some? {
      AmountIsText(LineExtensionAmount, l.netAmountMinor.value, h.currency);
      var net := Amount(LineExtensionAmount, l.netAmountMinor.value, h.currency);
      if net.Err? {
        return Err(UnknownCurrency);
      }
      PushNode(parts, kids, LineAmountNodes(h, l)[0]);
      parts, kids := parts + [net.value], kids + LineAmountNodes(h, l);
    }
    var item := ItemPart(l);
    PushAll(parts, kids, item, ItemNodes(l));
    parts, kids := parts + item, kids + ItemNodes(l);
    assert kids == [Leaf(ID, IntText(l.lineNumber))] + QuantityNodes(h, l) + LineAmountNodes(h, l) + ItemNodes(l);
    WrapText(LineTag(h), parts, kids);
    return Ok(Wrap(LineTag(h), Join(parts)));
  }

  // ---------- The document ----------

  /** Some amount would be printed. */
  predicate HasAmount(doc: CanonicalDoc) {
    || doc.header.taxAmountMinor.Some? || doc.header.lineExtensionMinor.Some? || doc.header.payableMinor.Some?
    || exists i :: 0 <= i < |doc.lines| && doc.lines[i].netAmountMinor.Some?
  }

  /** The lines, joined. */
  method LinesPart(h: Header, lines: seq<CanonicalLine>) returns (r: Result<seq<string>, UblError>)
    ensures (exists i :: 0 <= i < |lines| && lines[i].netAmountMinor.Some?) && !KnownCurrency(h.currency) ==> r == Err(UnknownCurrency)
    ensures (forall i :: 0 <= i < |lines| ==> lines[i].netAmountMinor.None?) || KnownCurrency(h.currency) ==>
              r.Ok? && Join(r.value) == TextAll(LineNodes(h, lines))
  {
    hide Text, TextAll, Join, KnownCurrency, LineNode;
    var parts: seq<string> := [];
    NothingPushed();
    assert lines[..0] == [];
    for i := 0 to |lines|
      invariant Join(parts) == TextAll(LineNodes(h, lines[..i]))
      invariant KnownCurrency(h.currency) || forall k :: 0 <= k < i ==> lines[k].netAmountMinor.None?
    {
      assert lines[..i + 1][..i] == lines[..i] && lines[..i + 1][i] == lines[i];
      var line := LinePart(h, lines[i]);
      if line.Err? {
        return Err(UnknownCurrency);
      }
      PushNode(parts, LineNodes(h, lines[..i]), LineNode(h, lines[i]));
      parts := parts + [line.value];
    }
    assert lines[..|lines|] == lines;
    return Ok(parts);
  }

  /** The head of the document up to the currency. */
  method HeadPart(h: Header, ctx: Context) returns (head: seq<string>)
    ensures Join(head) == TextAll(HeadNodes(h, ctx))
  {
    hide Text, TextAll, TagText, El, Join, TypeCode, TypeCodeTag;
    head := [];
    ghost var kids: seq<Node> := [];
    NothingPushed();
    head, kids := PushLeaf(head, kids, CustomizationID, ctx.customizationId);
    head, kids := PushLeaf(head, kids, ProfileID, ctx.profileId);
    head, kids := PushLeaf(head, kids, ID, h.invoiceNumber);
    head, kids := PushLeaf(head, kids, IssueDate, h.issueDate);
    head, kids := PushLeaf(head, kids, TypeCodeTag(h), TypeCode(h.docType));
    head, kids := PushLeaf(head, kids, DocumentCurrencyCode, h.currency);
    assert kids == HeadNodes(h, ctx);
  }

  method PushLeaf(parts: seq<string>, ghost kids: seq<Node>, tag: Tag, value: string) returns (pushed: seq<string>, ghost nodes: seq<Node>)
    requires Join(parts) == TextAll(kids)
    ensures nodes == kids + [Leaf(tag, value)] && Join(pushed) == TextAll(nodes)
  {
    hide Text, TextAll, TagText, El, Join;
    LeafText(tag, value);
    PushNode(parts, kids, Leaf(tag, value));
    pushed, nodes := parts + [El(TagText(tag), value, "")], kids + [Leaf(tag, value)];
  }

  method BillingPart(h: Header) returns (parts: seq<string>)
    ensures Join(parts) == TextAll(BillingNodes(h))
  {
    hide Text, TextAll, TagText, El, Wrap, Join;
    NothingPushed();
    if h.predecessorRef.None? {
      return [];
    }
    WrapLeaf(InvoiceDocumentReference, ID, h.predecessorRef.value);
    WrapOne(BillingReference, Branch(InvoiceDocumentReference, [Leaf(ID, h.predecessorRef.value)]));
    parts := [Wrap(BillingReference, Wrap(InvoiceDocumentReference, El(TagText(ID), h.predecessorRef.value, "")))];
    JoinOne(parts[0]);
    TextAllOne(BillingNodes(h)[0]);
  }

  method PartiesPart(h: Header, ctx: Context) returns (parts: seq<string>)
    ensures Join(parts) == TextAll(PartyNodes(h, ctx))
  {
    hide Text, TextAll, Join, PartyNode;
    NothingPushed();
    var supplier := PartyPart(AccountingSupplierParty, ctx.sellerName, h.sellerTrn, ctx.sellerCountry);
    var customer := PartyPart(AccountingCustomerParty, h.buyerName, h.buyerTrn, ctx.buyerCountry);
    PushNode([], [], PartyNodes(h, ctx)[0]);
    PushNode([] + [supplier], [] + [PartyNodes(h, ctx)[0]], PartyNodes(h, ctx)[1]);
    assert [] + [PartyNodes(h, ctx)[0]] + [PartyNodes(h, ctx)[1]] == PartyNodes(h, ctx);
    return [] + [supplier] + [customer];
  }

  /** The declarations of the root element, and what it prints around its content. */
  function RootText(h: Header, content: string): string {
    "<" + (TagText(RootTag(h)) + (PrintAttrs(RootAttrs(h)) + ">")) + (content + CloseTag(TagText(RootTag(h))))
  }

  lemma RootIsText(doc: CanonicalDoc, ctx: Context)
    ensures RootText(doc.header, TextAll(RootKids(doc, ctx))) == Text(Document(doc, ctx))
  {
    hide TagText, PrintAttrs, RootAttrs, RootKids, CloseTag, RootTag;
    var rest := TextAll(RootKids(doc, ctx)) + CloseTag(TagText(RootTag(doc.header)));
    assert Escape("") == "" && "" + rest == rest;
  }

  lemma ContentText(doc: CanonicalDoc, ctx: Context, head: seq<string>, billing: seq<string>, parties: seq<string>,
                    tax: seq<string>, totals: seq<string>, lines: seq<string>)
    requires Join(head) == TextAll(HeadNodes(doc.header, ctx)) && Join(billing) == TextAll(BillingNodes(doc.header))
    requires Join(parties) == TextAll(PartyNodes(doc.header, ctx)) && Join(tax) == TextAll(TaxNodes(doc.header, doc.lines))
    requires Join(totals) == TextAll(TotalNodes(doc.header)) && Join(lines) == TextAll(LineNodes(doc.header, doc.lines))
    ensures Join(head + (billing + (parties + (tax + totals)))) + Join(lines) == TextAll(RootKids(doc, ctx))
  {
    hide HeadNodes, BillingNodes, PartyNodes, TaxNodes, TotalNodes, LineNodes;
    var h, b, p := HeadNodes(doc.header, ctx), BillingNodes(doc.header), PartyNodes(doc.header, ctx);
    var t, m, l := TaxNodes(doc.header, doc.lines), TotalNodes(doc.header), LineNodes(doc.header, doc.lines);
    PushAll(tax, t, totals, m);
    PushAll(parties, p, tax + totals, t + m);
    PushAll(billing, b, parties + (tax + totals), p + (t + m));
    PushAll(head, h, billing + (parties + (tax + totals)), b + (p + (t + m)));
    TextAllConcat(h + (b + (p + (t + m))), l);
    hide Join, TextAll;
    AssocNodes(h, b + (p + (t + m)), l);
    AssocNodes(b, p + (t + m), l);
    AssocNodes(p, t + m, l);
    AssocNodes(t, m, l);
  }

  lemma AssocNodes(a: seq<Node>, b: seq<Node>, c: seq<Node>)
    ensures (a + b) + c == a + (b + c)
  {
  }

  /**
   * `toUbl`: it throws when a specification identifier is blank, or an amount has a currency without a
   * known exponent; otherwise the text is the declaration and the printed document.
   */
  method ToUbl(doc: CanonicalDoc, ctx: Context) returns (r: Result<string, UblError>)
    ensures r == if JsText.Trim(ctx.customizationId) == "" || JsText.Trim(ctx.profileId) == "" then Err(MissingSpecIdentifiers)
                 else if HasAmount(doc) && !KnownCurrency(doc.header.currency) then Err(UnknownCurrency)
                 else Ok(PROLOG + Text(Document(doc, ctx)))
  {
    hide Text, TextAll, TagText, Join, KnownCurrency, JsText.Trim, RootKids, HeadNodes, BillingNodes, PartyNodes, TaxNodes, TotalNodes,
         LineNodes, Document, RootText;
    var missing: seq<string> := [];
    if JsText.Trim(ctx.customizationId) == "" {
      missing := missing + ["CustomizationID"];
    }
    if JsText.Trim(ctx.profileId) == "" {
      missing := missing + ["ProfileID"];
    }
    if |missing| > 0 {
      return Err(MissingSpecIdentifiers);
    }
    var h := doc.header;
    var head := HeadPart(h, ctx);
    var billing := BillingPart(h);
    var parties := PartiesPart(h, ctx);
    var tax := TaxPart(h, doc.lines);
    if tax.Err? {
      return Err(UnknownCurrency);
    }
    var totals := TotalsPart(h);
    if totals.Err? {
      return Err(UnknownCurrency);
    }
    var lines := LinesPart(h, doc.lines);
    if lines.Err? {
      return Err(UnknownCurrency);
    }
    if h.taxAmountMinor.None? {
      NothingPushed();
      NoTax(h, doc.lines);
    }
    ContentText(doc, ctx, head, billing, parties, tax.value, totals.value, lines.value);
    RootIsText(doc, ctx);
    return Ok(PROLOG + RootText(h, Join(head + (billing + (parties + (tax.value + totals.value)))) + Join(lines.value)));
  }

  lemma NoTax(h: Header, lines: seq<CanonicalLine>)
    requires h.taxAmountMinor.None?
    ensures TaxNodes(h, lines) == []
  {
  }
}
