/**
 * UBL to business terms (apps/validator/src/validator/parsers/ubl.py), and what parsing makes of the
 * documents the web application prints.
 */
module UblParser {
  import opened Base
  import opened Canonical
  import opened Namespaces
  import opened UblNames
  import opened UblTree
  import opened XmlText
  import JsText
  import Money
  import UblPrinter

  // ---------- Business terms ----------

  datatype Term =
    | BT1 | BT2 | BT3 | BT5 | BT6 | BT9 | BT10 | BT13 | BT22 | BT25 | BT26 | BT27 | BT31 | BT40 | BT44 | BT48 | BT55
    | BT106 | BT107 | BT108 | BT109 | BT110 | BT112 | BT113 | BT115

  const HEADER_TERMS: set<Term> := {
    BT1, BT2, BT5, BT6, BT9, BT10, BT13, BT22, BT25, BT26, BT27, BT31, BT40, BT44, BT48, BT55,
    BT106, BT107, BT108, BT109, BT110, BT112, BT113, BT115}

  /** Where a header term stands, from the document element. BT-3 has no path of its own. */
  function HeaderPath(t: Term): (path: seq<Tag>)
    ensures path != []
  {
    match t
    case BT1 => [ID]
    case BT2 => [IssueDate]
    case BT3 => [InvoiceTypeCode]
    case BT5 => [DocumentCurrencyCode]
    case BT6 => [TaxCurrencyCode]
    case BT9 => [DueDate]
    case BT10 => [BuyerReference]
    case BT13 => [OrderReference, ID]
    case BT22 => [Note]
    case BT25 => [BillingReference, InvoiceDocumentReference, ID]
    case BT26 => [BillingReference, InvoiceDocumentReference, IssueDate]
    case BT27 => [AccountingSupplierParty, Party, PartyLegalEntity, RegistrationName]
    case BT31 => [AccountingSupplierParty, Party, PartyTaxScheme, CompanyID]
    case BT40 => [AccountingSupplierParty, Party, PostalAddress, Country, IdentificationCode]
    case BT44 => [AccountingCustomerParty, Party, PartyLegalEntity, RegistrationName]
    case BT48 => [AccountingCustomerParty, Party, PartyTaxScheme, CompanyID]
    case BT55 => [AccountingCustomerParty, Party, PostalAddress, Country, IdentificationCode]
    case BT106 => [LegalMonetaryTotal, LineExtensionAmount]
    case BT107 => [LegalMonetaryTotal, AllowanceTotalAmount]
    case BT108 => [LegalMonetaryTotal, ChargeTotalAmount]
    case BT109 => [LegalMonetaryTotal, TaxExclusiveAmount]
    case BT110 => [TaxTotal, TaxAmount]
    case BT112 => [LegalMonetaryTotal, TaxInclusiveAmount]
    case BT113 => [LegalMonetaryTotal, PrepaidAmount]
    case BT115 => [LegalMonetaryTotal, PayableAmount]
  }

  datatype LineTerm = BT126 | BT131 | BT146 | BT151 | BT152 | BT153

  const LINE_TERMS: set<LineTerm> := {BT126, BT131, BT146, BT151, BT152, BT153}

  function LinePath(t: LineTerm): (path: seq<Tag>)
    ensures path != []
  {
    match t
    case BT126 => [ID]
    case BT131 => [LineExtensionAmount]
    case BT146 => [Price, PriceAmount]
    case BT151 => [Item, ClassifiedTaxCategory, ID]
    case BT152 => [Item, ClassifiedTaxCategory, Percent]
    case BT153 => [Item, Name]
  }

  datatype ParsedLine = ParsedLine(
    lineNumber: nat, terms: map<LineTerm, Option<string>>, quantity: Option<string>, unitCode: Option<string>)

  datatype ParsedTaxSubtotal = ParsedTaxSubtotal(
    taxableAmount: Option<string>, taxAmount: Option<string>, categoryCode: Option<string>, percent: Option<string>)

  datatype ParsedDocument = ParsedDocument(
    rootLocalName: string, customizationId: Option<string>, profileId: Option<string>, documentTypeCode: Option<string>,
    terms: map<Term, Option<string>>, lines: seq<ParsedLine>, taxSubtotals: seq<ParsedTaxSubtotal>)

  datatype ParseError = ParseError

  // ---------- Finding elements ----------

  /** `find`: the first element in document order that the whole path leads to. */
  function Find(kids: seq<Node>, path: seq<Tag>): Option<Node>
    requires path != []
    decreases |path|, |kids|
  {
    if kids == [] then None
    else if kids[0].tag != path[0] then Find(kids[1..], path)
    else if |path| == 1 then Some(kids[0])
    else
      var below := Find(kids[0].kids, path[1..]);
      if below.Some? then below else Find(kids[1..], path)
  }

  /** `findall` of one step. */
  function FindAll(kids: seq<Node>, tag: Tag): seq<Node> {
    if kids == [] then []
    else if kids[0].tag == tag then [kids[0]] + FindAll(kids[1..], tag)
    else FindAll(kids[1..], tag)
  }

  /** `findall` of two steps. */
  function FindAllBelow(kids: seq<Node>, outer: Tag, tag: Tag): seq<Node> {
    if kids == [] then []
    else if kids[0].tag == outer then FindAll(kids[0].kids, tag) + FindAllBelow(kids[1..], outer, tag)
    else FindAllBelow(kids[1..], outer, tag)
  }

  /** `_text`: absent is None, an element without text is the empty string. */
  function TextAt(kids: seq<Node>, path: seq<Tag>): Option<string>
    requires path != []
  {
    match Find(kids, path)
    case None => None
    case Some(e) => Some(e.text)
  }

  function AttrOf(attrs: seq<Attr>, name: string): Option<string> {
    if attrs == [] then None else if attrs[0].name == name then Some(attrs[0].value) else AttrOf(attrs[1..], name)
  }

  /** An element's own `text`, which is None when there is none. */
  function OwnText(e: Option<Node>): Option<string> {
    if e.Some? && e.value.text != "" then Some(e.value.text) else None
  }

  // ---------- `parse` ----------

  function LineOf(e: Node, index: nat, quantityTag: Tag): ParsedLine {
    var qty := Find(e.kids, [quantityTag]);
    ParsedLine(index, map t | t in LINE_TERMS :: TextAt(e.kids, LinePath(t)), OwnText(qty),
               if qty.Some? then AttrOf(qty.value.attrs, "unitCode") else None)
  }

  function LinesOf(elements: seq<Node>, quantityTag: Tag): (lines: seq<ParsedLine>)
    ensures |lines| == |elements|
    ensures forall i :: 0 <= i < |lines| ==> lines[i] == LineOf(elements[i], i + 1, quantityTag)
  {
    seq(|elements|, i requires 0 <= i < |elements| => LineOf(elements[i], i + 1, quantityTag))
  }

  function SubtotalOf(e: Node): ParsedTaxSubtotal {
    ParsedTaxSubtotal(TextAt(e.kids, [TaxableAmount]), TextAt(e.kids, [TaxAmount]), TextAt(e.kids, [TaxCategory, ID]),
                      TextAt(e.kids, [TaxCategory, Percent]))
  }

  function SubtotalsOf(elements: seq<Node>): (subtotals: seq<ParsedTaxSubtotal>)
    ensures |subtotals| == |elements| && forall i :: 0 <= i < |subtotals| ==> subtotals[i] == SubtotalOf(elements[i])
  {
    seq(|elements|, i requires 0 <= i < |elements| => SubtotalOf(elements[i]))
  }

  function TermsOf(kids: seq<Node>, typeCode: Option<string>): map<Term, Option<string>> {
    (map t | t in HEADER_TERMS :: TextAt(kids, HeaderPath(t)))[BT3 := typeCode]
  }

  /** The parsed form of a root that is an invoice or a credit note. */
  function DocumentOf(root: Node): ParsedDocument {
    var credit := root.tag.CreditNoteRoot?;
    var typeCode := TextAt(root.kids, [if credit then CreditNoteTypeCode else InvoiceTypeCode]);
    ParsedDocument(
      if credit then "CreditNote" else "Invoice", TextAt(root.kids, [CustomizationID]), TextAt(root.kids, [ProfileID]), typeCode,
      TermsOf(root.kids, typeCode),
      LinesOf(FindAll(root.kids, if credit then CreditNoteLine else InvoiceLine), if credit then CreditedQuantity else InvoicedQuantity),
      SubtotalsOf(FindAllBelow(root.kids, TaxTotal, TaxSubtotal)))
  }

  function Parsed(text: string): Result<ParsedDocument, ParseError> {
    match ReadDocument(text)
    case Err(_) => Err(ParseError.ParseError)
    case Ok(x) =>
      var root := Resolved(x);
      if root.None? || root.value.tag.Other? then Err(ParseError.ParseError) else Ok(DocumentOf(root.value))
  }

  method Parse(text: string) returns (r: Result<ParsedDocument, ParseError>)
    ensures r == Parsed(text)
  {
    hide TextAt, FindAll, FindAllBelow, HeaderPath, LineOf, SubtotalOf, ReadDocument, Resolved;
    var document := ReadDocument(text);
    if document.Err? {
      return Err(ParseError.ParseError);
    }
    var resolved := Resolved(document.value);
    if resolved.None? {
      return Err(ParseError.ParseError);
    }
    var root := resolved.value;
    var lineTag, qtyTag, typeCode, local := InvoiceLine, InvoicedQuantity, None, "Invoice";
    if root.tag == InvoiceRoot {
      typeCode := TextAt(root.kids, [InvoiceTypeCode]);
    } else if root.tag == CreditNoteRoot {
      lineTag, qtyTag, local := CreditNoteLine, CreditedQuantity, "CreditNote";
      typeCode := TextAt(root.kids, [CreditNoteTypeCode]);
    } else {
      return Err(ParseError.ParseError);
    }
    var terms := map t | t in HEADER_TERMS :: TextAt(root.kids, HeaderPath(t));
    terms := terms[BT3 := typeCode];
    var elements := FindAll(root.kids, lineTag);
    var lines: seq<ParsedLine> := [];
    for i := 0 to |elements|
      invariant |lines| == i && forall k :: 0 <= k < i ==> lines[k] == LineOf(elements[k], k + 1, qtyTag)
    {
      lines := lines + [LineOf(elements[i], i + 1, qtyTag)];
    }
    var found := FindAllBelow(root.kids, TaxTotal, TaxSubtotal);
    var subtotals: seq<ParsedTaxSubtotal> := [];
    for i := 0 to |found|
      invariant |subtotals| == i && forall k :: 0 <= k < i ==> subtotals[k] == SubtotalOf(found[k])
    {
      subtotals := subtotals + [SubtotalOf(found[i])];
    }
    assert lines == LinesOf(elements, qtyTag) && subtotals == SubtotalsOf(found);
    return Ok(ParsedDocument(local, TextAt(root.kids, [CustomizationID]), TextAt(root.kids, [ProfileID]), typeCode, terms, lines, subtotals));
  }

  // ---------- What is found ----------

  /** A way down: an element at each step of the path, each among the children of the one before. */
  ghost predicate Leads(kids: seq<Node>, path: seq<Tag>, way: seq<nat>)
    decreases |path|
  {
    && path != [] && |way| == |path| && way[0] < |kids| && kids[way[0]].tag == path[0]
    && (|path| == 1 || Leads(kids[way[0]].kids, path[1..], way[1..]))
  }

  ghost function EndOf(kids: seq<Node>, path: seq<Tag>, way: seq<nat>): Node
    requires Leads(kids, path, way)
    decreases |path|
  {
    if |path| == 1 then kids[way[0]] else EndOf(kids[way[0]].kids, path[1..], way[1..])
  }

  /** Document order, of ways of one length. */
  ghost predicate Precedes(a: seq<nat>, b: seq<nat>)
    requires |a| == |b|
  {
    a != [] && (a[0] < b[0] || (a[0] == b[0] && Precedes(a[1..], b[1..])))
  }

  ghost function Later(way: seq<nat>): seq<nat>
    requires way != []
  {
    [way[0] + 1] + way[1..]
  }

  lemma {:induction false} LeadsLater(kids: seq<Node>, path: seq<Tag>, way: seq<nat>)
    requires kids != [] && way != []
    ensures Leads(kids[1..], path, way) <==> Leads(kids, path, Later(way))
    ensures Leads(kids[1..], path, way) ==> EndOf(kids[1..], path, way) == EndOf(kids, path, Later(way))
  {
    assert Later(way)[1..] == way[1..];
    assert way[0] < |kids[1..]| ==> kids[1..][way[0]] == kids[Later(way)[0]];
  }

  lemma {:induction false} LeadsInto(kids: seq<Node>, path: seq<Tag>, way: seq<nat>)
    requires kids != [] && |path| > 1 && kids[0].tag == path[0] && Leads(kids[0].kids, path[1..], way)
    ensures Leads(kids, path, [0] + way) && EndOf(kids, path, [0] + way) == EndOf(kids[0].kids, path[1..], way)
  {
    assert ([0] + way)[1..] == way;
  }

  /** The way to the element found. */
  ghost function FoundWay(kids: seq<Node>, path: seq<Tag>): (way: seq<nat>)
    requires path != [] && Find(kids, path).Some?
    ensures Leads(kids, path, way) && Find(kids, path) == Some(EndOf(kids, path, way))
    decreases |path|, |kids|
  {
    if kids[0].tag == path[0] && |path| == 1 then [0]
    else if kids[0].tag == path[0] && Find(kids[0].kids, path[1..]).Some? then
      var way := FoundWay(kids[0].kids, path[1..]);
      LeadsInto(kids, path, way);
      [0] + way
    else
      var way := FoundWay(kids[1..], path);
      LeadsLater(kids, path, way);
      Later(way)
  }

  /** An element is found whenever some way leads to one, and no way comes before its own. */
  lemma {:induction false} FindIsTheFirst(kids: seq<Node>, path: seq<Tag>, way: seq<nat>)
    requires Leads(kids, path, way)
    ensures Find(kids, path).Some? && (FoundWay(kids, path) == way || Precedes(FoundWay(kids, path), way))
    decreases |path|, |kids|
  {
    if way[0] > 0 {
      var earlier := [way[0] - 1] + way[1..];
      assert Later(earlier) == way;
      LeadsLater(kids, path, earlier);
      FindIsTheFirst(kids[1..], path, earlier);
    } else if |path| > 1 {
      FindIsTheFirst(kids[0].kids, path[1..], way[1..]);
      assert way == [0] + way[1..];
    } else {
      assert way == [0];
    }
  }

  // ---------- Prefixes do not matter ----------

  /** Texts whose documents differ in prefixes alone parse alike. */
  lemma PrefixesDoNotMatter(text: string, text': string)
    requires ReadDocument(text).Ok? && ReadDocument(text').Ok? && SameDocument(ReadDocument(text).value, ReadDocument(text').value)
    ensures Parsed(text) == Parsed(text')
  {
    hide ReadDocument, Resolved, DocumentOf, SameDocument;
    SameDocumentResolves(ReadDocument(text).value, ReadDocument(text').value);
  }

  /** Parsing fails exactly on text that is not well formed, an undeclared prefix, or a root of another local name. */
  lemma ParseErrorExactly(text: string)
    ensures Parsed(text).Err? <==> match ReadDocument(text)
                                   case Err(_) => true
                                   case Ok(x) => Undeclared(x, START_SCOPE) || LocalOf(x.name) !in {"Invoice", "CreditNote"}
  {
    hide ReadDocument, DocumentOf, Undeclared, Resolve, LocalOf;
    match ReadDocument(text)
    case Err(_) =>
    case Ok(x) =>
      Namespaces.ResolvesExactly(x, START_SCOPE);
  }

  // ---------- Finding in a tree as read back ----------

  function Normalised(o: Option<string>): Option<string> {
    if o.Some? then Some(Eol(o.value)) else None
  }

  lemma ReadCons(n: Node, more: seq<Node>)
    ensures ReadAll([n] + more) == [ReadNode(n)] + ReadAll(more)
  {
    assert ([n] + more)[1..] == more;
    hide ReadNode;
  }

  lemma {:induction false} FindRead(kids: seq<Node>, path: seq<Tag>)
    requires path != []
    ensures Find(ReadAll(kids), path) == match Find(kids, path)
                                         case None => None
                                         case Some(e) => Some(ReadNode(e))
    decreases |path|, |kids|
  {
    if kids != [] {
      var n, rest := kids[0], kids[1..];
      assert kids == [n] + rest;
      ReadCons(n, rest);
      assert ReadAll(kids)[0] == ReadNode(n) && ReadAll(kids)[1..] == ReadAll(rest);
      assert ReadNode(n).tag == n.tag && ReadNode(n).kids == ReadAll(n.kids);
      hide ReadNode, ReadAll;
      FindRead(rest, path);
      if n.tag == path[0] && |path| > 1 {
        FindRead(n.kids, path[1..]);
      }
    }
  }

  lemma TextAtRead(kids: seq<Node>, path: seq<Tag>)
    requires path != []
    ensures TextAt(ReadAll(kids), path) == Normalised(TextAt(kids, path))
  {
    FindRead(kids, path);
    hide Find, ReadAll;
  }

  lemma {:induction false} FindAllRead(kids: seq<Node>, tag: Tag)
    ensures FindAll(ReadAll(kids), tag) == ReadAll(FindAll(kids, tag))
  {
    if kids != [] {
      var n, rest := kids[0], kids[1..];
      assert kids == [n] + rest;
      ReadCons(n, rest);
      ReadCons(n, FindAll(rest, tag));
      FindAllRead(rest, tag);
      assert ReadAll(kids)[0] == ReadNode(n) && ReadAll(kids)[1..] == ReadAll(rest) && ReadNode(n).tag == n.tag;
      hide ReadNode, ReadAll;
    }
  }

  lemma {:induction false} ReadConcat(a: seq<Node>, b: seq<Node>)
    ensures ReadAll(a + b) == ReadAll(a) + ReadAll(b)
  {
    if a == [] {
      assert a + b == b;
    } else {
      assert a == [a[0]] + a[1..] && a + b == [a[0]] + (a[1..] + b);
      ReadCons(a[0], a[1..]);
      ReadCons(a[0], a[1..] + b);
      ReadConcat(a[1..], b);
      hide ReadNode, ReadAll;
    }
  }

  lemma {:induction false} FindAllBelowRead(kids: seq<Node>, outer: Tag, tag: Tag)
    ensures FindAllBelow(ReadAll(kids), outer, tag) == ReadAll(FindAllBelow(kids, outer, tag))
  {
    if kids != [] {
      var n, rest := kids[0], kids[1..];
      assert kids == [n] + rest;
      FindAllBelowRead(rest, outer, tag);
      FindAllRead(n.kids, tag);
      ReadCons(n, rest);
      assert ReadNode(n).tag == n.tag && ReadNode(n).kids == ReadAll(n.kids);
      FindAllBelowCons(n, rest, outer, tag);
      hide ReadNode, ReadAll, FindAll;
      FindAllBelowCons(ReadNode(n), ReadAll(rest), outer, tag);
      hide FindAllBelow;
      ReadConcat(FindAll(n.kids, tag), FindAllBelow(rest, outer, tag));
    }
  }

  lemma FindAllBelowStep(kids: seq<Node>, outer: Tag, tag: Tag)
    requires kids != []
    ensures FindAllBelow(kids, outer, tag)
            == if kids[0].tag == outer then FindAll(kids[0].kids, tag) + FindAllBelow(kids[1..], outer, tag)
               else FindAllBelow(kids[1..], outer, tag)
  {
    hide FindAll;
  }

  lemma FindAllBelowCons(n: Node, rest: seq<Node>, outer: Tag, tag: Tag)
    ensures FindAllBelow([n] + rest, outer, tag)
            == if n.tag == outer then FindAll(n.kids, tag) + FindAllBelow(rest, outer, tag) else FindAllBelow(rest, outer, tag)
  {
    hide FindAll;
    var kids := [n] + rest;
    FindAllBelowStep(kids, outer, tag);
    hide FindAllBelow;
    assert kids[1..] == rest;
  }

  lemma {:induction false} ReadAllLength(kids: seq<Node>)
    ensures |ReadAll(kids)| == |kids| && forall i :: 0 <= i < |kids| ==> ReadAll(kids)[i] == ReadNode(kids[i])
  {
    if kids != [] {
      ReadAllLength(kids[1..]);
      hide ReadNode;
    }
  }

  // ---------- Finding in concatenated sections ----------

  function Either(a: Option<Node>, b: Option<Node>): Option<Node> {
    if a.Some? then a else b
  }

  lemma {:induction false} FindConcat(a: seq<Node>, b: seq<Node>, path: seq<Tag>)
    requires path != []
    ensures Find(a + b, path) == Either(Find(a, path), Find(b, path))
    decreases |path|, |a|
  {
    if a == [] {
      assert a + b == b;
    } else {
      assert (a + b)[0] == a[0] && (a + b)[1..] == a[1..] + b;
      FindConcat(a[1..], b, path);
    }
  }

  lemma {:induction false} FindAbsent(kids: seq<Node>, path: seq<Tag>)
    requires path != [] && forall i :: 0 <= i < |kids| ==> kids[i].tag != path[0]
    ensures Find(kids, path) == None
  {
    if kids != [] {
      FindAbsent(kids[1..], path);
    }
  }

  lemma {:induction false} FindFirst(kids: seq<Node>, i: nat, tag: Tag)
    requires i < |kids| && kids[i].tag == tag && forall j :: 0 <= j < i ==> kids[j].tag != tag
    ensures Find(kids, [tag]) == Some(kids[i])
    decreases i
  {
    if i > 0 {
      FindFirst(kids[1..], i - 1, tag);
    }
  }

  lemma FindSingle(n: Node, path: seq<Tag>)
    requires |path| > 1 && n.tag == path[0]
    ensures Find([n], path) == Find(n.kids, path[1..])
  {
    assert [n][1..] == [];
    assert Find([], path) == None;
  }

  lemma {:induction false} FindAllConcat(a: seq<Node>, b: seq<Node>, tag: Tag)
    ensures FindAll(a + b, tag) == FindAll(a, tag) + FindAll(b, tag)
  {
    if a == [] {
      assert a + b == b;
    } else {
      assert (a + b)[0] == a[0] && (a + b)[1..] == a[1..] + b;
      FindAllConcat(a[1..], b, tag);
      UblPrinter.AssocNodes([a[0]], FindAll(a[1..], tag), FindAll(b, tag));
    }
  }

  lemma {:induction false} FindAllAbsent(kids: seq<Node>, tag: Tag)
    requires forall i :: 0 <= i < |kids| ==> kids[i].tag != tag
    ensures FindAll(kids, tag) == []
  {
    if kids != [] {
      FindAllAbsent(kids[1..], tag);
    }
  }

  lemma {:induction false} FindAllEvery(kids: seq<Node>, tag: Tag)
    requires forall i :: 0 <= i < |kids| ==> kids[i].tag == tag
    ensures FindAll(kids, tag) == kids
  {
    if kids != [] {
      FindAllEvery(kids[1..], tag);
      assert kids == [kids[0]] + kids[1..];
    }
  }

  lemma {:induction false} FindAllBelowConcat(a: seq<Node>, b: seq<Node>, outer: Tag, tag: Tag)
    ensures FindAllBelow(a + b, outer, tag) == FindAllBelow(a, outer, tag) + FindAllBelow(b, outer, tag)
  {
    if a == [] {
      assert a + b == b;
    } else {
      assert (a + b)[0] == a[0] && (a + b)[1..] == a[1..] + b;
      FindAllBelowConcat(a[1..], b, outer, tag);
      UblPrinter.AssocNodes(FindAll(a[0].kids, tag), FindAllBelow(a[1..], outer, tag), FindAllBelow(b, outer, tag));
      hide FindAll;
    }
  }

  lemma {:induction false} FindAllBelowAbsent(kids: seq<Node>, outer: Tag, tag: Tag)
    requires forall i :: 0 <= i < |kids| ==> kids[i].tag != outer
    ensures FindAllBelow(kids, outer, tag) == []
  {
    if kids != [] {
      FindAllBelowAbsent(kids[1..], outer, tag);
    }
  }

  // ---------- Finding in the printed document ----------

  datatype Section = HeadSection | BillingSection | PartySection | TaxSection | TotalSection | LineSection | NoSection

  /** The part of the document element's children a tag can occur in. */
  function SectionOf(t: Tag): Section {
    match t
    case CustomizationID => HeadSection
    case ProfileID => HeadSection
    case ID => HeadSection
    case IssueDate => HeadSection
    case InvoiceTypeCode => HeadSection
    case CreditNoteTypeCode => HeadSection
    case DocumentCurrencyCode => HeadSection
    case BillingReference => BillingSection
    case AccountingSupplierParty => PartySection
    case AccountingCustomerParty => PartySection
    case TaxTotal => TaxSection
    case LegalMonetaryTotal => TotalSection
    case InvoiceLine => LineSection
    case CreditNoteLine => LineSection
    case _ => NoSection
  }

  function Part(doc: CanonicalDoc, ctx: Context, s: Section): seq<Node> {
    match s
    case HeadSection => HeadNodes(doc.header, ctx)
    case BillingSection => BillingNodes(doc.header)
    case PartySection => PartyNodes(doc.header, ctx)
    case TaxSection => TaxNodes(doc.header, doc.lines)
    case TotalSection => TotalNodes(doc.header)
    case LineSection => LineNodes(doc.header, doc.lines)
    case NoSection => []
  }

  lemma {:induction false} LineTags(h: Header, lines: seq<CanonicalLine>)
    ensures |LineNodes(h, lines)| == |lines|
    ensures forall i :: 0 <= i < |lines| ==> LineNodes(h, lines)[i] == LineNode(h, lines[i])
  {
    hide LineNode;
    if lines != [] {
      var front := LineNodes(h, lines[..|lines| - 1]);
      LineTags(h, lines[..|lines| - 1]);
      assert LineNodes(h, lines) == front + [LineNode(h, lines[|lines| - 1])];
      hide LineNodes;
      forall i | 0 <= i < |lines| ensures LineNodes(h, lines)[i] == LineNode(h, lines[i]) {
        if i < |lines| - 1 {
          assert LineNodes(h, lines)[i] == front[i] && lines[..|lines| - 1][i] == lines[i];
        }
      }
    }
  }

  lemma LineNodeTag(h: Header, l: CanonicalLine)
    ensures LineNode(h, l).tag == LineTag(h) && SectionOf(LineTag(h)) == LineSection
  {
    hide QuantityNodes, LineAmountNodes, ItemNodes;
  }

  lemma LinePartTags(h: Header, lines: seq<CanonicalLine>, i: int)
    requires 0 <= i < |LineNodes(h, lines)|
    ensures LineNodes(h, lines)[i].tag == LineTag(h) && SectionOf(LineNodes(h, lines)[i].tag) == LineSection
  {
    LineTags(h, lines);
    LineNodeTag(h, lines[i]);
    hide LineNodes, LineNode, SectionOf, LineTag;
  }

  lemma HeadPartTags(h: Header, ctx: Context, i: int)
    requires 0 <= i < |HeadNodes(h, ctx)|
    ensures SectionOf(HeadNodes(h, ctx)[i].tag) == HeadSection
  {
  }

  lemma BillingPartTags(h: Header, i: int)
    requires 0 <= i < |BillingNodes(h)|
    ensures SectionOf(BillingNodes(h)[i].tag) == BillingSection
  {
  }

  lemma PartyPartTags(h: Header, ctx: Context, i: int)
    requires 0 <= i < |PartyNodes(h, ctx)|
    ensures SectionOf(PartyNodes(h, ctx)[i].tag) == PartySection
  {
    hide PartyKids;
  }

  lemma TaxPartTags(h: Header, lines: seq<CanonicalLine>, i: int)
    requires 0 <= i < |TaxNodes(h, lines)|
    ensures SectionOf(TaxNodes(h, lines)[i].tag) == TaxSection
  {
    hide SubtotalNodes, AmountNode;
  }

  lemma TotalPartTags(h: Header, i: int)
    requires 0 <= i < |TotalNodes(h)|
    ensures SectionOf(TotalNodes(h)[i].tag) == TotalSection
  {
    hide TotalKids;
  }

  lemma PartTags(doc: CanonicalDoc, ctx: Context, s: Section, i: int)
    requires 0 <= i < |Part(doc, ctx, s)|
    ensures SectionOf(Part(doc, ctx, s)[i].tag) == s
  {
    hide SectionOf, HeadNodes, BillingNodes, PartyNodes, TaxNodes, TotalNodes, LineNodes, LineTag;
    match s {
      case HeadSection => HeadPartTags(doc.header, ctx, i);
      case BillingSection => BillingPartTags(doc.header, i);
      case PartySection => PartyPartTags(doc.header, ctx, i);
      case TaxSection => TaxPartTags(doc.header, doc.lines, i);
      case TotalSection => TotalPartTags(doc.header, i);
      case LineSection => LinePartTags(doc.header, doc.lines, i);
      case NoSection =>
    }
  }

  lemma PartAbsent(doc: CanonicalDoc, ctx: Context, s: Section, path: seq<Tag>)
    requires path != [] && SectionOf(path[0]) != s
    ensures Find(Part(doc, ctx, s), path) == None
  {
    forall i | 0 <= i < |Part(doc, ctx, s)| ensures Part(doc, ctx, s)[i].tag != path[0] {
      PartTags(doc, ctx, s, i);
    }
    hide Part;
    FindAbsent(Part(doc, ctx, s), path);
  }

  lemma RootKidsParts(doc: CanonicalDoc, ctx: Context)
    ensures RootKids(doc, ctx) == Part(doc, ctx, HeadSection)
            + (Part(doc, ctx, BillingSection)
               + (Part(doc, ctx, PartySection)
                  + (Part(doc, ctx, TaxSection) + (Part(doc, ctx, TotalSection) + Part(doc, ctx, LineSection)))))
  {
    hide HeadNodes, BillingNodes, PartyNodes, TaxNodes, TotalNodes, LineNodes;
  }

  lemma FindInParts(doc: CanonicalDoc, ctx: Context, path: seq<Tag>)
    requires path != []
    ensures Find(RootKids(doc, ctx), path)
            == Either(Find(Part(doc, ctx, HeadSection), path),
                 Either(Find(Part(doc, ctx, BillingSection), path),
                   Either(Find(Part(doc, ctx, PartySection), path),
                     Either(Find(Part(doc, ctx, TaxSection), path),
                       Either(Find(Part(doc, ctx, TotalSection), path), Find(Part(doc, ctx, LineSection), path))))))
  {
    hide RootKids, Part, Find, Either;
    RootKidsParts(doc, ctx);
    var h, b, p := Part(doc, ctx, HeadSection), Part(doc, ctx, BillingSection), Part(doc, ctx, PartySection);
    var t, m, l := Part(doc, ctx, TaxSection), Part(doc, ctx, TotalSection), Part(doc, ctx, LineSection);
    FindConcat(m, l, path);
    FindConcat(t, m + l, path);
    FindConcat(p, t + (m + l), path);
    FindConcat(b, p + (t + (m + l)), path);
    FindConcat(h, b + (p + (t + (m + l))), path);
  }

  lemma NoPart(doc: CanonicalDoc, ctx: Context)
    ensures Part(doc, ctx, NoSection) == []
  {
    hide HeadNodes, BillingNodes, PartyNodes, TaxNodes, TotalNodes, LineNodes;
  }

  /** A path is looked up in the one section its first step belongs to. */
  lemma FindInSection(doc: CanonicalDoc, ctx: Context, path: seq<Tag>)
    requires path != []
    ensures Find(RootKids(doc, ctx), path) == Find(Part(doc, ctx, SectionOf(path[0])), path)
  {
    hide RootKids, Part, SectionOf, Find;
    FindInParts(doc, ctx, path);
    forall s | s != SectionOf(path[0]) ensures Find(Part(doc, ctx, s), path) == None {
      PartAbsent(doc, ctx, s, path);
    }
    NothingFound(path);
    NoPart(doc, ctx);
  }

  lemma NothingFound(path: seq<Tag>)
    requires path != []
    ensures Find([], path) == None
  {
  }

  lemma PartsAbsentAll(doc: CanonicalDoc, ctx: Context, s: Section, tag: Tag)
    requires SectionOf(tag) != s
    ensures FindAll(Part(doc, ctx, s), tag) == [] && forall t :: FindAllBelow(Part(doc, ctx, s), tag, t) == []
  {
    forall i | 0 <= i < |Part(doc, ctx, s)| ensures Part(doc, ctx, s)[i].tag != tag {
      PartTags(doc, ctx, s, i);
    }
    hide Part;
    FindAllAbsent(Part(doc, ctx, s), tag);
    forall t ensures FindAllBelow(Part(doc, ctx, s), tag, t) == [] {
      FindAllBelowAbsent(Part(doc, ctx, s), tag, t);
    }
  }

  lemma LinePart(doc: CanonicalDoc, ctx: Context)
    ensures Part(doc, ctx, LineSection) == LineNodes(doc.header, doc.lines) && SectionOf(LineTag(doc.header)) == LineSection
    ensures FindAll(LineNodes(doc.header, doc.lines), LineTag(doc.header)) == LineNodes(doc.header, doc.lines)
  {
    hide LineNodes, FindAll;
    forall i | 0 <= i < |LineNodes(doc.header, doc.lines)|
      ensures LineNodes(doc.header, doc.lines)[i].tag == LineTag(doc.header)
    {
      LinePartTags(doc.header, doc.lines, i);
    }
    FindAllEvery(LineNodes(doc.header, doc.lines), LineTag(doc.header));
  }

  /** Elements found among the children of the root are found in their section. */
  lemma FindAllInParts(doc: CanonicalDoc, ctx: Context, tag: Tag)
    requires SectionOf(tag) == LineSection
    ensures FindAll(RootKids(doc, ctx), tag) == FindAll(Part(doc, ctx, LineSection), tag)
  {
    RootKidsParts(doc, ctx);
    hide *;
    PartsAbsentAll(doc, ctx, HeadSection, tag);
    PartsAbsentAll(doc, ctx, BillingSection, tag);
    PartsAbsentAll(doc, ctx, PartySection, tag);
    PartsAbsentAll(doc, ctx, TaxSection, tag);
    PartsAbsentAll(doc, ctx, TotalSection, tag);
    var h, b, p := Part(doc, ctx, HeadSection), Part(doc, ctx, BillingSection), Part(doc, ctx, PartySection);
    var t, m, l := Part(doc, ctx, TaxSection), Part(doc, ctx, TotalSection), Part(doc, ctx, LineSection);
    FindAllConcat(m, l, tag);
    FindAllConcat(t, m + l, tag);
    FindAllConcat(p, t + (m + l), tag);
    FindAllConcat(b, p + (t + (m + l)), tag);
    FindAllConcat(h, b + (p + (t + (m + l))), tag);
    EmptyFront(FindAll(l, tag));
  }

  /** The lines found are the lines printed, in order. */
  lemma LinesFound(doc: CanonicalDoc, ctx: Context)
    ensures FindAll(RootKids(doc, ctx), LineTag(doc.header)) == LineNodes(doc.header, doc.lines)
  {
    hide *;
    LinePart(doc, ctx);
    FindAllInParts(doc, ctx, LineTag(doc.header));
  }

  lemma EmptyFront(found: seq<Node>)
    ensures [] + found == found && found + [] == found
  {
  }

  lemma FindAllOne(n: Node, tag: Tag)
    ensures FindAll([n], tag) == if n.tag == tag then [n] else []
  {
    assert [n][1..] == [] && FindAll([], tag) == [];
  }

  lemma FindAllBelowOne(n: Node, outer: Tag, tag: Tag)
    requires n.tag == outer
    ensures FindAllBelow([n], outer, tag) == FindAll(n.kids, tag)
  {
    assert [n][1..] == [] && FindAllBelow([], outer, tag) == [];
    assert FindAll(n.kids, tag) + [] == FindAll(n.kids, tag);
  }

  lemma TaxSubtotalsFound(h: Header, lines: seq<CanonicalLine>)
    ensures FindAllBelow(TaxNodes(h, lines), TaxTotal, TaxSubtotal) == SubtotalNodes(h, lines)
  {
    if h.taxAmountMinor.Some? {
      var amount := AmountNode(TaxAmount, h.taxAmountMinor.value, h.currency);
      FindAllBelowOne(TaxNodes(h, lines)[0], TaxTotal, TaxSubtotal);
      FindAllConcat([amount], SubtotalNodes(h, lines), TaxSubtotal);
      FindAllOne(amount, TaxSubtotal);
      FindAllEvery(SubtotalNodes(h, lines), TaxSubtotal);
      assert [] + SubtotalNodes(h, lines) == SubtotalNodes(h, lines);
    }
  }

  /** The tax subtotals found are the one printed, when there is one. */
  lemma SubtotalsFound(doc: CanonicalDoc, ctx: Context)
    ensures FindAllBelow(RootKids(doc, ctx), TaxTotal, TaxSubtotal) == SubtotalNodes(doc.header, doc.lines)
  {
    TaxSubtotalsFound(doc.header, doc.lines);
    assert Part(doc, ctx, TaxSection) == TaxNodes(doc.header, doc.lines);
    hide RootKids, Part, TaxNodes, SubtotalNodes, FindAllBelow, FindAll, SectionOf;
    RootKidsParts(doc, ctx);
    OtherPartsHaveNone(doc, ctx);
    var h, b, p := Part(doc, ctx, HeadSection), Part(doc, ctx, BillingSection), Part(doc, ctx, PartySection);
    var t, m, l := Part(doc, ctx, TaxSection), Part(doc, ctx, TotalSection), Part(doc, ctx, LineSection);
    FindAllBelowConcat(m, l, TaxTotal, TaxSubtotal);
    FindAllBelowConcat(t, m + l, TaxTotal, TaxSubtotal);
    FindAllBelowConcat(p, t + (m + l), TaxTotal, TaxSubtotal);
    FindAllBelowConcat(b, p + (t + (m + l)), TaxTotal, TaxSubtotal);
    FindAllBelowConcat(h, b + (p + (t + (m + l))), TaxTotal, TaxSubtotal);
    EmptyFront(SubtotalNodes(doc.header, doc.lines));
    EmptyFront([]);
  }

  lemma OtherPartsHaveNone(doc: CanonicalDoc, ctx: Context)
    ensures forall s :: s != TaxSection ==> FindAllBelow(Part(doc, ctx, s), TaxTotal, TaxSubtotal) == []
  {
    assert SectionOf(TaxTotal) == TaxSection;
    hide Part, FindAllBelow, FindAll, SectionOf;
    forall s | s != TaxSection ensures FindAllBelow(Part(doc, ctx, s), TaxTotal, TaxSubtotal) == [] {
      PartsAbsentAll(doc, ctx, s, TaxTotal);
    }
  }

  // ---------- Each header term ----------

  function AmountOption(minor: Option<int>, currency: string): Option<string> {
    if minor.Some? then Some(AmountText(minor.value, currency)) else None
  }

  /** What the printed document holds for a header term. */
  function PrintedTerm(h: Header, ctx: Context, t: Term): Option<string> {
    match t
    case BT1 => Some(h.invoiceNumber)
    case BT2 => Some(h.issueDate)
    case BT3 => Some(TypeCode(h.docType))
    case BT5 => Some(h.currency)
    case BT25 => h.predecessorRef
    case BT27 => ctx.sellerName
    case BT31 => h.sellerTrn
    case BT40 => ctx.sellerCountry
    case BT44 => h.buyerName
    case BT48 => h.buyerTrn
    case BT55 => ctx.buyerCountry
    case BT106 => AmountOption(h.lineExtensionMinor, h.currency)
    case BT109 => AmountOption(h.lineExtensionMinor, h.currency)
    case BT110 => AmountOption(h.taxAmountMinor, h.currency)
    case BT112 => AmountOption(h.payableMinor, h.currency)
    case BT115 => AmountOption(h.payableMinor, h.currency)
    case _ => None
  }

  lemma HeadText(h: Header, ctx: Context, i: nat)
    requires i < 6
    ensures var n := HeadNodes(h, ctx); TextAt(n, [n[i].tag]) == Some(n[i].text)
  {
    var n := HeadNodes(h, ctx);
    FindFirst(n, i, n[i].tag);
    hide Find;
  }

  lemma HeadTerms(doc: CanonicalDoc, ctx: Context, i: nat)
    requires i < 6
    ensures var n := HeadNodes(doc.header, ctx)[i]; TextAt(RootKids(doc, ctx), [n.tag]) == Some(n.text)
  {
    assert |HeadNodes(doc.header, ctx)| == 6 && Part(doc, ctx, HeadSection) == HeadNodes(doc.header, ctx);
    hide RootKids, Find, TextAt, HeadNodes, Part, SectionOf;
    HeadText(doc.header, ctx, i);
    HeadPartTags(doc.header, ctx, i);
    TextInPart(doc, ctx, [HeadNodes(doc.header, ctx)[i].tag]);
  }

  lemma BillingTerm(h: Header, tag: Tag)
    ensures TextAt(BillingNodes(h), [BillingReference, InvoiceDocumentReference, tag]) == if tag.ID? then h.predecessorRef else None
  {
    hide Find;
    var path := [BillingReference, InvoiceDocumentReference, tag];
    if h.predecessorRef.Some? {
      var id := Leaf(ID, h.predecessorRef.value);
      FindSingle(BillingNodes(h)[0], path);
      assert path[1..] == [InvoiceDocumentReference, tag];
      FindSingle(Branch(InvoiceDocumentReference, [id]), [InvoiceDocumentReference, tag]);
      assert [InvoiceDocumentReference, tag][1..] == [tag];
      if tag.ID? {
        FindFirst([id], 0, ID);
      } else {
        FindAbsent([id], [tag]);
      }
    } else {
      NothingFound(path);
    }
  }

  /** A one-leaf branch among others. */
  lemma BranchLeaf(n: Node, path: seq<Tag>, leaf: Node)
    requires |path| == 2 && n.tag == path[0] && n.kids != [] && n.kids[0] == leaf && leaf.tag == path[1]
    ensures Find([n], path) == Some(leaf)
  {
    FindSingle(n, path);
    assert path[1..] == [path[1]];
    FindFirst(n.kids, 0, path[1]);
  }

  lemma PartyParts(name: Option<string>, trn: Option<string>, country: Option<string>, path: seq<Tag>)
    requires path != []
    ensures Find(PartyKids(name, trn, country), path)
            == Either(Either(
                 if country.Some? then Find([Branch(PostalAddress, [Branch(Country, [Leaf(IdentificationCode, country.value)])])], path) else None,
                 if trn.Some? then Find([Branch(PartyTaxScheme, [Leaf(CompanyID, trn.value), VatScheme()])], path) else None),
                 if name.Some? then Find([Branch(PartyLegalEntity, [Leaf(RegistrationName, name.value)])], path) else None)
  {
    var a: seq<Node> := if country.Some? then [Branch(PostalAddress, [Branch(Country, [Leaf(IdentificationCode, country.value)])])] else [];
    var b: seq<Node> := if trn.Some? then [Branch(PartyTaxScheme, [Leaf(CompanyID, trn.value), VatScheme()])] else [];
    var c: seq<Node> := if name.Some? then [Branch(PartyLegalEntity, [Leaf(RegistrationName, name.value)])] else [];
    FindConcat(a + b, c, path);
    FindConcat(a, b, path);
    NothingFound(path);
    hide Find, Branch, Leaf, VatScheme;
  }

  lemma PartyNames(name: Option<string>, trn: Option<string>, country: Option<string>)
    ensures TextAt(PartyKids(name, trn, country), [PartyLegalEntity, RegistrationName]) == name
  {
    hide Find, PartyKids, VatScheme;
    var path := [PartyLegalEntity, RegistrationName];
    PartyParts(name, trn, country, path);
    if country.Some? {
      FindAbsent([Branch(PostalAddress, [Branch(Country, [Leaf(IdentificationCode, country.value)])])], path);
    }
    if trn.Some? {
      FindAbsent([Branch(PartyTaxScheme, [Leaf(CompanyID, trn.value), VatScheme()])], path);
    }
    if name.Some? {
      BranchLeaf(Branch(PartyLegalEntity, [Leaf(RegistrationName, name.value)]), path, Leaf(RegistrationName, name.value));
    }
  }

  lemma PartyTrns(name: Option<string>, trn: Option<string>, country: Option<string>)
    ensures TextAt(PartyKids(name, trn, country), [PartyTaxScheme, CompanyID]) == trn
  {
    hide Find, PartyKids, VatScheme;
    var path := [PartyTaxScheme, CompanyID];
    PartyParts(name, trn, country, path);
    if country.Some? {
      FindAbsent([Branch(PostalAddress, [Branch(Country, [Leaf(IdentificationCode, country.value)])])], path);
    }
    if name.Some? {
      FindAbsent([Branch(PartyLegalEntity, [Leaf(RegistrationName, name.value)])], path);
    }
    if trn.Some? {
      BranchLeaf(Branch(PartyTaxScheme, [Leaf(CompanyID, trn.value), VatScheme()]), path, Leaf(CompanyID, trn.value));
    }
  }

  lemma PartyCountries(name: Option<string>, trn: Option<string>, country: Option<string>)
    ensures TextAt(PartyKids(name, trn, country), [PostalAddress, Country, IdentificationCode]) == country
  {
    hide Find, PartyKids, VatScheme;
    var path := [PostalAddress, Country, IdentificationCode];
    PartyParts(name, trn, country, path);
    if trn.Some? {
      FindAbsent([Branch(PartyTaxScheme, [Leaf(CompanyID, trn.value), VatScheme()])], path);
    }
    if name.Some? {
      FindAbsent([Branch(PartyLegalEntity, [Leaf(RegistrationName, name.value)])], path);
    }
    if country.Some? {
      var leaf := Leaf(IdentificationCode, country.value);
      FindSingle(Branch(PostalAddress, [Branch(Country, [leaf])]), path);
      assert path[1..] == [Country, IdentificationCode];
      BranchLeaf(Branch(Country, [leaf]), [Country, IdentificationCode], leaf);
    }
  }

  /** Under one of the two parties. */
  lemma PartyFound(h: Header, ctx: Context, supplier: bool, rest: seq<Tag>)
    requires rest != []
    ensures Find(PartyNodes(h, ctx), [if supplier then AccountingSupplierParty else AccountingCustomerParty, Party] + rest)
            == Find(if supplier then PartyKids(ctx.sellerName, h.sellerTrn, ctx.sellerCountry)
                    else PartyKids(h.buyerName, h.buyerTrn, ctx.buyerCountry), rest)
  {
    hide PartyKids, Find;
    var path := [if supplier then AccountingSupplierParty else AccountingCustomerParty, Party] + rest;
    var a, b := PartyNodes(h, ctx)[0], PartyNodes(h, ctx)[1];
    assert PartyNodes(h, ctx) == [a] + [b];
    FindConcat([a], [b], path);
    var own, other := if supplier then a else b, if supplier then b else a;
    FindAbsent([other], path);
    UnderParty(own, path[0], if supplier then PartyKids(ctx.sellerName, h.sellerTrn, ctx.sellerCountry)
                             else PartyKids(h.buyerName, h.buyerTrn, ctx.buyerCountry), rest);
  }

  lemma UnderParty(n: Node, tag: Tag, kids: seq<Node>, rest: seq<Tag>)
    requires n == Branch(tag, [Branch(Party, kids)]) && rest != []
    ensures Find([n], [tag, Party] + rest) == Find(kids, rest)
  {
    hide Find;
    var path := [tag, Party] + rest;
    FindSingle(n, path);
    assert path[1..] == [Party] + rest;
    FindSingle(Branch(Party, kids), [Party] + rest);
    assert ([Party] + rest)[1..] == rest;
  }

  predicate IsPartyTerm(t: Term) {
    t.BT27? || t.BT31? || t.BT40? || t.BT44? || t.BT48? || t.BT55?
  }

  lemma TextInPart(doc: CanonicalDoc, ctx: Context, path: seq<Tag>)
    requires path != []
    ensures TextAt(RootKids(doc, ctx), path) == TextAt(Part(doc, ctx, SectionOf(path[0])), path)
  {
    hide RootKids, Find, Part, SectionOf;
    FindInSection(doc, ctx, path);
  }

  lemma PartyText(doc: CanonicalDoc, ctx: Context, supplier: bool, rest: seq<Tag>)
    requires rest != []
    ensures TextAt(RootKids(doc, ctx), [if supplier then AccountingSupplierParty else AccountingCustomerParty, Party] + rest)
            == TextAt(if supplier then PartyKids(ctx.sellerName, doc.header.sellerTrn, ctx.sellerCountry)
                      else PartyKids(doc.header.buyerName, doc.header.buyerTrn, ctx.buyerCountry), rest)
  {
    hide RootKids, Find, PartyKids, PartyNodes;
    TextInPart(doc, ctx, [if supplier then AccountingSupplierParty else AccountingCustomerParty, Party] + rest);
    PartyFound(doc.header, ctx, supplier, rest);
  }

  lemma PartyTerm(doc: CanonicalDoc, ctx: Context, t: Term)
    requires IsPartyTerm(t)
    ensures TextAt(RootKids(doc, ctx), HeaderPath(t)) == PrintedTerm(doc.header, ctx, t)
  {
    hide RootKids, Find, TextAt, PartyKids;
    var h := doc.header;
    var supplier := t.BT27? || t.BT31? || t.BT40?;
    var rest := HeaderPath(t)[2..];
    assert HeaderPath(t) == [if supplier then AccountingSupplierParty else AccountingCustomerParty, Party] + rest;
    PartyText(doc, ctx, supplier, rest);
    if t.BT27? || t.BT44? {
      assert rest == [PartyLegalEntity, RegistrationName];
      PartyNames(ctx.sellerName, h.sellerTrn, ctx.sellerCountry);
      PartyNames(h.buyerName, h.buyerTrn, ctx.buyerCountry);
    } else if t.BT31? || t.BT48? {
      assert rest == [PartyTaxScheme, CompanyID];
      PartyTrns(ctx.sellerName, h.sellerTrn, ctx.sellerCountry);
      PartyTrns(h.buyerName, h.buyerTrn, ctx.buyerCountry);
    } else {
      assert rest == [PostalAddress, Country, IdentificationCode];
      PartyCountries(ctx.sellerName, h.sellerTrn, ctx.sellerCountry);
      PartyCountries(h.buyerName, h.buyerTrn, ctx.buyerCountry);
    }
  }

  /** An amount among two, or nothing. */
  lemma AmountPair(a: Tag, b: Tag, minor: Option<int>, currency: string, tag: Tag)
    requires a != b
    ensures TextAt(PairOf(a, b, minor, currency), [tag]) == if tag == a || tag == b then AmountOption(minor, currency) else None
  {
    hide AmountText;
    if minor.None? {
      NothingFound([tag]);
    } else {
      var kids := [AmountNode(a, minor.value, currency), AmountNode(b, minor.value, currency)];
      if tag == a {
        FindFirst(kids, 0, a);
      } else if tag == b {
        FindFirst(kids, 1, b);
      } else {
        FindAbsent(kids, [tag]);
      }
      hide Find;
    }
  }

  /** The pair of amounts printed for one amount. */
  function PairOf(a: Tag, b: Tag, minor: Option<int>, currency: string): seq<Node> {
    if minor.Some? then [AmountNode(a, minor.value, currency), AmountNode(b, minor.value, currency)] else []
  }

  lemma TotalKidsArePairs(h: Header)
    ensures TotalKids(h) == PairOf(LineExtensionAmount, TaxExclusiveAmount, h.lineExtensionMinor, h.currency)
                            + PairOf(TaxInclusiveAmount, PayableAmount, h.payableMinor, h.currency)
  {
    hide AmountNode;
  }

  lemma TotalKidsText(h: Header, tag: Tag)
    ensures TextAt(TotalKids(h), [tag])
            == if tag.LineExtensionAmount? || tag.TaxExclusiveAmount? then AmountOption(h.lineExtensionMinor, h.currency)
               else if tag.TaxInclusiveAmount? || tag.PayableAmount? then AmountOption(h.payableMinor, h.currency) else None
  {
    hide Find, PairOf, AmountOption, TotalKids;
    TotalKidsArePairs(h);
    FindConcat(PairOf(LineExtensionAmount, TaxExclusiveAmount, h.lineExtensionMinor, h.currency),
               PairOf(TaxInclusiveAmount, PayableAmount, h.payableMinor, h.currency), [tag]);
    AmountPair(LineExtensionAmount, TaxExclusiveAmount, h.lineExtensionMinor, h.currency, tag);
    AmountPair(TaxInclusiveAmount, PayableAmount, h.payableMinor, h.currency, tag);
  }

  lemma TotalText(h: Header, tag: Tag)
    ensures TextAt(TotalNodes(h), [LegalMonetaryTotal, tag]) == TextAt(TotalKids(h), [tag])
  {
    var path := [LegalMonetaryTotal, tag];
    assert path[1..] == [tag];
    if TotalKids(h) == [] {
      NothingFound(path);
      NothingFound([tag]);
    } else {
      FindSingle(TotalNodes(h)[0], path);
      assert TotalNodes(h) == [TotalNodes(h)[0]];
    }
    hide Find, TotalKids;
  }

  predicate IsTotalTerm(t: Term) {
    t.BT106? || t.BT107? || t.BT108? || t.BT109? || t.BT112? || t.BT113? || t.BT115?
  }

  lemma TotalsText(doc: CanonicalDoc, ctx: Context, tag: Tag)
    ensures var h := doc.header;
            TextAt(RootKids(doc, ctx), [LegalMonetaryTotal, tag])
            == if tag.LineExtensionAmount? || tag.TaxExclusiveAmount? then AmountOption(h.lineExtensionMinor, h.currency)
               else if tag.TaxInclusiveAmount? || tag.PayableAmount? then AmountOption(h.payableMinor, h.currency) else None
  {
    hide RootKids, Find, TextAt, TotalKids, TotalNodes, AmountOption;
    TextInPart(doc, ctx, [LegalMonetaryTotal, tag]);
    TotalText(doc.header, tag);
    TotalKidsText(doc.header, tag);
  }

  function TotalTag(t: Term): Tag
    requires IsTotalTerm(t)
  {
    match t
    case BT106 => LineExtensionAmount
    case BT107 => AllowanceTotalAmount
    case BT108 => ChargeTotalAmount
    case BT109 => TaxExclusiveAmount
    case BT112 => TaxInclusiveAmount
    case BT113 => PrepaidAmount
    case BT115 => PayableAmount
  }

  lemma TotalPath(t: Term)
    requires IsTotalTerm(t)
    ensures HeaderPath(t) == [LegalMonetaryTotal, TotalTag(t)]
  {
  }

  lemma TotalTerm(doc: CanonicalDoc, ctx: Context, t: Term)
    requires IsTotalTerm(t)
    ensures TextAt(RootKids(doc, ctx), HeaderPath(t)) == PrintedTerm(doc.header, ctx, t)
  {
    hide RootKids, TextAt, AmountOption, HeaderPath;
    TotalPath(t);
    TotalsText(doc, ctx, TotalTag(t));
  }

  lemma TaxText(h: Header, lines: seq<CanonicalLine>)
    ensures TextAt(TaxNodes(h, lines), [TaxTotal, TaxAmount]) == AmountOption(h.taxAmountMinor, h.currency)
  {
    hide SubtotalNodes, AmountText, Find;
    var path := [TaxTotal, TaxAmount];
    if h.taxAmountMinor.Some? {
      BranchLeaf(TaxNodes(h, lines)[0], path, AmountNode(TaxAmount, h.taxAmountMinor.value, h.currency));
      assert TaxNodes(h, lines) == [TaxNodes(h, lines)[0]];
    } else {
      NothingFound(path);
    }
  }

  lemma TaxTerm(doc: CanonicalDoc, ctx: Context)
    ensures TextAt(RootKids(doc, ctx), HeaderPath(BT110)) == PrintedTerm(doc.header, ctx, BT110)
  {
    hide RootKids, Find, TextAt, TaxNodes, AmountOption;
    TextInPart(doc, ctx, [TaxTotal, TaxAmount]);
    TaxText(doc.header, doc.lines);
  }

  predicate IsAbsentTerm(t: Term) {
    t.BT6? || t.BT9? || t.BT10? || t.BT13? || t.BT22?
  }

  lemma NoSectionText(doc: CanonicalDoc, ctx: Context, path: seq<Tag>)
    requires path != [] && SectionOf(path[0]) == NoSection
    ensures TextAt(RootKids(doc, ctx), path) == None
  {
    hide RootKids, Find, SectionOf;
    TextInPart(doc, ctx, path);
    NothingFound(path);
  }

  lemma AbsentTerm(doc: CanonicalDoc, ctx: Context, t: Term)
    requires IsAbsentTerm(t)
    ensures TextAt(RootKids(doc, ctx), HeaderPath(t)) == PrintedTerm(doc.header, ctx, t)
  {
    hide RootKids, Find, TextAt;
    NoSectionText(doc, ctx, HeaderPath(t));
  }

  lemma IdentityTerm(doc: CanonicalDoc, ctx: Context, t: Term)
    requires t.BT1? || t.BT2? || t.BT5?
    ensures TextAt(RootKids(doc, ctx), HeaderPath(t)) == PrintedTerm(doc.header, ctx, t)
  {
    hide RootKids, TextAt;
    HeadTerms(doc, ctx, if t.BT1? then 2 else if t.BT2? then 3 else 5);
  }

  lemma LineageTerm(doc: CanonicalDoc, ctx: Context, t: Term)
    requires t.BT25? || t.BT26?
    ensures TextAt(RootKids(doc, ctx), HeaderPath(t)) == PrintedTerm(doc.header, ctx, t)
  {
    hide RootKids, Find, TextAt, BillingNodes;
    TextInPart(doc, ctx, HeaderPath(t));
    BillingTerm(doc.header, HeaderPath(t)[2]);
    assert HeaderPath(t) == [BillingReference, InvoiceDocumentReference, HeaderPath(t)[2]];
  }

  /** Every header term of the printed document. */
  lemma HeaderTerm(doc: CanonicalDoc, ctx: Context, t: Term)
    requires t in HEADER_TERMS
    ensures TextAt(RootKids(doc, ctx), HeaderPath(t)) == PrintedTerm(doc.header, ctx, t)
  {
    hide RootKids, TextAt, HeaderPath, PrintedTerm;
    if IsPartyTerm(t) {
      PartyTerm(doc, ctx, t);
    } else if IsTotalTerm(t) {
      TotalTerm(doc, ctx, t);
    } else if IsAbsentTerm(t) {
      AbsentTerm(doc, ctx, t);
    } else if t.BT110? {
      TaxTerm(doc, ctx);
    } else if t.BT25? || t.BT26? {
      LineageTerm(doc, ctx, t);
    } else {
      IdentityTerm(doc, ctx, t);
    }
  }

  // ---------- Each line ----------

  function PrintedLineTerm(h: Header, l: CanonicalLine, t: LineTerm): Option<string> {
    match t
    case BT126 => Some(IntText(l.lineNumber))
    case BT131 => AmountOption(l.netAmountMinor, h.currency)
    case BT146 => None
    case BT151 => l.taxCategoryCode
    case BT152 => l.taxRate
    case BT153 => l.description
  }

  /** A line as it is found again: no unit without a quantity, and an empty quantity reads as absent. */
  function ExpectedLine(h: Header, l: CanonicalLine, index: nat): ParsedLine {
    ParsedLine(index, map t | t in LINE_TERMS :: Normalised(PrintedLineTerm(h, l, t)),
               if l.quantity.Some? && l.quantity.value != "" then Normalised(l.quantity) else None,
               if l.quantity.Some? && l.unitCode.Some? then Some(Spaced(Eol(l.unitCode.value))) else None)
  }

  function LineKids(h: Header, l: CanonicalLine): seq<Node> {
    [Leaf(ID, IntText(l.lineNumber))] + (QuantityNodes(h, l) + (LineAmountNodes(h, l) + ItemNodes(l)))
  }

  lemma LineKidsAre(h: Header, l: CanonicalLine)
    ensures LineNode(h, l).kids == LineKids(h, l)
  {
    hide QuantityNodes, LineAmountNodes, ItemNodes;
    var id := [Leaf(ID, IntText(l.lineNumber))];
    assert id + QuantityNodes(h, l) + LineAmountNodes(h, l) + ItemNodes(l) == LineKids(h, l);
  }

  lemma FindInLine(h: Header, l: CanonicalLine, path: seq<Tag>)
    requires path != []
    ensures Find(LineKids(h, l), path)
            == Either(Find([Leaf(ID, IntText(l.lineNumber))], path),
                      Either(Find(QuantityNodes(h, l), path), Either(Find(LineAmountNodes(h, l), path), Find(ItemNodes(l), path))))
  {
    hide Find, QuantityNodes, LineAmountNodes, ItemNodes;
    var q, a, i := QuantityNodes(h, l), LineAmountNodes(h, l), ItemNodes(l);
    FindConcat(a, i, path);
    FindConcat(q, a + i, path);
    FindConcat([Leaf(ID, IntText(l.lineNumber))], q + (a + i), path);
  }

  lemma LinePartsAbsent(h: Header, l: CanonicalLine, path: seq<Tag>)
    requires path != []
    ensures path[0] != ID ==> Find([Leaf(ID, IntText(l.lineNumber))], path) == None
    ensures path[0] != QuantityTag(h) ==> Find(QuantityNodes(h, l), path) == None
    ensures path[0] != LineExtensionAmount ==> Find(LineAmountNodes(h, l), path) == None
    ensures path[0] != Item ==> Find(ItemNodes(l), path) == None
  {
    hide AmountText, ItemKids, IntText, Find;
    if path[0] != ID {
      FindAbsent([Leaf(ID, IntText(l.lineNumber))], path);
    }
    if path[0] != QuantityTag(h) {
      FindAbsent(QuantityNodes(h, l), path);
    }
    if path[0] != LineExtensionAmount {
      FindAbsent(LineAmountNodes(h, l), path);
    }
    if path[0] != Item {
      FindAbsent(ItemNodes(l), path);
    }
  }

  lemma LineNumberText(h: Header, l: CanonicalLine)
    ensures TextAt(LineKids(h, l), [ID]) == Some(IntText(l.lineNumber))
  {
    FindInLine(h, l, [ID]);
    FindFirst([Leaf(ID, IntText(l.lineNumber))], 0, ID);
    hide Find, LineKids, QuantityNodes, LineAmountNodes, ItemNodes;
  }

  lemma QuantityFound(h: Header, l: CanonicalLine)
    ensures Find(LineKids(h, l), [QuantityTag(h)]) == if l.quantity.None? then None else Some(QuantityNodes(h, l)[0])
  {
    var path := [QuantityTag(h)];
    FindInLine(h, l, path);
    LinePartsAbsent(h, l, path);
    assert QuantityTag(h) != ID && QuantityTag(h) != LineExtensionAmount && QuantityTag(h) != Item;
    if l.quantity.Some? {
      FindFirst(QuantityNodes(h, l), 0, QuantityTag(h));
    } else {
      NothingFound(path);
    }
    hide Find, LineKids, LineAmountNodes, ItemNodes, QuantityTag;
  }

  lemma LineAmountText(h: Header, l: CanonicalLine)
    ensures TextAt(LineKids(h, l), [LineExtensionAmount]) == AmountOption(l.netAmountMinor, h.currency)
  {
    var path := [LineExtensionAmount];
    FindInLine(h, l, path);
    LinePartsAbsent(h, l, path);
    hide AmountText;
    if l.netAmountMinor.Some? {
      FindFirst(LineAmountNodes(h, l), 0, LineExtensionAmount);
    } else {
      NothingFound(path);
    }
    hide Find, LineKids, QuantityNodes, ItemNodes;
  }

  lemma ItemText(h: Header, l: CanonicalLine, rest: seq<Tag>)
    requires rest != []
    ensures TextAt(LineKids(h, l), [Item] + rest) == TextAt(ItemKids(l), rest)
  {
    var path := [Item] + rest;
    assert path[1..] == rest;
    FindInLine(h, l, path);
    LinePartsAbsent(h, l, path);
    hide ItemKids;
    if ItemKids(l) == [] {
      NothingFound(path);
      NothingFound(rest);
    } else {
      FindSingle(ItemNodes(l)[0], path);
      assert ItemNodes(l) == [ItemNodes(l)[0]];
    }
    hide Find, LineKids, QuantityNodes, LineAmountNodes;
  }

  lemma OptionalLeafText(tag: Tag, text: Option<string>)
    ensures TextAt(OptionalLeaf(tag, text), [tag]) == text
  {
    if text.Some? {
      FindFirst(OptionalLeaf(tag, text), 0, tag);
    } else {
      NothingFound([tag]);
    }
  }

  lemma OptionalLeafAbsent(tag: Tag, text: Option<string>, path: seq<Tag>)
    requires path != [] && path[0] != tag
    ensures Find(OptionalLeaf(tag, text), path) == None
  {
    FindAbsent(OptionalLeaf(tag, text), path);
  }

  /** Code and rate of a tax category. */
  lemma CategoryText(tag: Tag, code: Option<string>, rate: Option<string>)
    ensures TextAt(TaxCategoryNode(tag, code, rate).kids, [ID]) == code
    ensures TextAt(TaxCategoryNode(tag, code, rate).kids, [Percent]) == rate
  {
    var a, b, c := OptionalLeaf(ID, code), OptionalLeaf(Percent, rate), [VatScheme()];
    assert TaxCategoryNode(tag, code, rate).kids == a + b + c;
    FindAbsent(c, [ID]);
    FindAbsent(c, [Percent]);
    hide Find, OptionalLeaf, VatScheme, TaxCategoryNode;
    FindConcat(a + b, c, [ID]);
    FindConcat(a, b, [ID]);
    FindConcat(a + b, c, [Percent]);
    FindConcat(a, b, [Percent]);
    OptionalLeafText(ID, code);
    OptionalLeafText(Percent, rate);
    OptionalLeafAbsent(ID, code, [Percent]);
    OptionalLeafAbsent(Percent, rate, [ID]);
  }

  lemma ItemKidsText(l: CanonicalLine)
    ensures TextAt(ItemKids(l), [Name]) == l.description
    ensures TextAt(ItemKids(l), [ClassifiedTaxCategory, ID]) == l.taxCategoryCode
    ensures TextAt(ItemKids(l), [ClassifiedTaxCategory, Percent]) == l.taxRate
  {
    var a := OptionalLeaf(Name, l.description);
    var category := TaxCategoryNode(ClassifiedTaxCategory, l.taxCategoryCode, l.taxRate);
    var b: seq<Node> := if l.taxCategoryCode.Some? || l.taxRate.Some? then [category] else [];
    assert ItemKids(l) == a + b && category.tag == ClassifiedTaxCategory;
    hide Find, OptionalLeaf, TaxCategoryNode, ItemKids, TextAt;
    CategoryText(ClassifiedTaxCategory, l.taxCategoryCode, l.taxRate);
    ItemNameText(l.description, b);
    ItemCategoryText(l, a, b, category, ID);
    ItemCategoryText(l, a, b, category, Percent);
  }

  lemma ItemNameText(description: Option<string>, b: seq<Node>)
    requires forall i :: 0 <= i < |b| ==> b[i].tag == ClassifiedTaxCategory
    ensures TextAt(OptionalLeaf(Name, description) + b, [Name]) == description
  {
    hide Find, OptionalLeaf;
    FindConcat(OptionalLeaf(Name, description), b, [Name]);
    OptionalLeafText(Name, description);
    FindAbsent(b, [Name]);
  }

  lemma ItemCategoryText(l: CanonicalLine, a: seq<Node>, b: seq<Node>, category: Node, tag: Tag)
    requires a == OptionalLeaf(Name, l.description) && category.tag == ClassifiedTaxCategory
    requires b == if l.taxCategoryCode.Some? || l.taxRate.Some? then [category] else []
    ensures TextAt(a + b, [ClassifiedTaxCategory, tag])
            == if l.taxCategoryCode.Some? || l.taxRate.Some? then TextAt(category.kids, [tag]) else None
  {
    hide Find, OptionalLeaf;
    var path := [ClassifiedTaxCategory, tag];
    assert path[1..] == [tag];
    FindConcat(a, b, path);
    OptionalLeafAbsent(Name, l.description, path);
    if b == [] {
      NothingFound(path);
    } else {
      FindSingle(category, path);
    }
  }

  lemma LineTermText(h: Header, l: CanonicalLine, t: LineTerm)
    ensures TextAt(LineKids(h, l), LinePath(t)) == PrintedLineTerm(h, l, t)
  {
    hide LineKids, Find, ItemKids, AmountOption;
    match t {
      case BT126 => LineNumberText(h, l);
      case BT131 => LineAmountText(h, l);
      case BT146 =>
        FindInLine(h, l, [Price, PriceAmount]);
        LinePartsAbsent(h, l, [Price, PriceAmount]);
      case BT151 =>
        ItemText(h, l, [ClassifiedTaxCategory, ID]);
        assert [Item] + [ClassifiedTaxCategory, ID] == LinePath(BT151);
        ItemKidsText(l);
      case BT152 =>
        ItemText(h, l, [ClassifiedTaxCategory, Percent]);
        assert [Item] + [ClassifiedTaxCategory, Percent] == LinePath(BT152);
        ItemKidsText(l);
      case BT153 =>
        ItemText(h, l, [Name]);
        assert [Item] + [Name] == LinePath(BT153);
        ItemKidsText(l);
    }
  }

  // ---------- Reading the printed lines, subtotals and terms ----------

  lemma UnitRead(value: string)
    ensures AttrOf(SpacedAttrs(EolAttrs([Attr("unitCode", value)])), "unitCode") == Some(Spaced(Eol(value)))
    ensures AttrOf(SpacedAttrs(EolAttrs([])), "unitCode") == None
  {
    hide Spaced, Eol;
  }

  lemma QuantityRead(h: Header, l: CanonicalLine)
    ensures var qty := Find(ReadAll(LineKids(h, l)), [QuantityTag(h)]);
            && OwnText(qty) == (if l.quantity.Some? && l.quantity.value != "" then Normalised(l.quantity) else None)
            && (if qty.Some? then AttrOf(qty.value.attrs, "unitCode") else None)
               == (if l.quantity.Some? && l.unitCode.Some? then Some(Spaced(Eol(l.unitCode.value))) else None)
  {
    FindRead(LineKids(h, l), [QuantityTag(h)]);
    QuantityFound(h, l);
    if l.quantity.Some? {
      var n := QuantityNodes(h, l)[0];
      assert ReadNode(n).text == Eol(n.text) && ReadNode(n).attrs == SpacedAttrs(EolAttrs(n.attrs));
      EolIsIdentity(l.quantity.value);
      UnitRead(if l.unitCode.Some? then l.unitCode.value else "");
    }
    hide Find, ReadAll, ReadNode, LineKids, Eol, Spaced, AttrOf, EolAttrs, SpacedAttrs;
  }

  lemma ReadLineKids(h: Header, l: CanonicalLine)
    ensures ReadNode(LineNode(h, l)).kids == ReadAll(LineKids(h, l))
  {
    hide LineNode, LineKids, ReadAll;
    LineKidsAre(h, l);
  }

  lemma LineTermsParse(h: Header, l: CanonicalLine)
    ensures (map t | t in LINE_TERMS :: TextAt(ReadAll(LineKids(h, l)), LinePath(t)))
            == map t | t in LINE_TERMS :: Normalised(PrintedLineTerm(h, l, t))
  {
    hide ReadAll, LineKids, TextAt, LinePath, PrintedLineTerm, Normalised;
    forall t | t in LINE_TERMS ensures TextAt(ReadAll(LineKids(h, l)), LinePath(t)) == Normalised(PrintedLineTerm(h, l, t)) {
      TextAtRead(LineKids(h, l), LinePath(t));
      LineTermText(h, l, t);
    }
  }

  /** A printed line parses to what is expected of it. */
  lemma LineParses(h: Header, l: CanonicalLine, index: nat)
    ensures LineOf(ReadNode(LineNode(h, l)), index, QuantityTag(h)) == ExpectedLine(h, l, index)
  {
    hide ReadNode, ReadAll, LineNode, LineKids, Find, TextAt, LinePath, OwnText, AttrOf, PrintedLineTerm, QuantityTag, Eol, Spaced, Normalised;
    ReadLineKids(h, l);
    QuantityRead(h, l);
    LineTermsParse(h, l);
  }

  function ExpectedLines(h: Header, lines: seq<CanonicalLine>): (r: seq<ParsedLine>)
    ensures |r| == |lines| && forall i :: 0 <= i < |lines| ==> r[i] == ExpectedLine(h, lines[i], i + 1)
  {
    seq(|lines|, i requires 0 <= i < |lines| => ExpectedLine(h, lines[i], i + 1))
  }

  lemma LinesParse(doc: CanonicalDoc, ctx: Context)
    ensures LinesOf(FindAll(ReadAll(RootKids(doc, ctx)), LineTag(doc.header)), QuantityTag(doc.header))
            == ExpectedLines(doc.header, doc.lines)
  {
    hide RootKids, ReadAll, LineTag, QuantityTag, FindAll, ExpectedLine, LineOf, ReadNode, LineNode, LineNodes;
    FindAllRead(RootKids(doc, ctx), LineTag(doc.header));
    LinesFound(doc, ctx);
    LineTags(doc.header, doc.lines);
    ReadAllLength(LineNodes(doc.header, doc.lines));
    forall i | 0 <= i < |doc.lines|
      ensures LineOf(ReadAll(LineNodes(doc.header, doc.lines))[i], i + 1, QuantityTag(doc.header)) == ExpectedLine(doc.header, doc.lines[i], i + 1)
    {
      LineParses(doc.header, doc.lines[i], i + 1);
    }
  }

  function ExpectedSubtotals(h: Header, lines: seq<CanonicalLine>): seq<ParsedTaxSubtotal> {
    if h.taxAmountMinor.None? || h.lineExtensionMinor.None? then []
    else [ParsedTaxSubtotal(Normalised(AmountOption(h.lineExtensionMinor, h.currency)), Normalised(AmountOption(h.taxAmountMinor, h.currency)),
                            Normalised(FirstCategory(lines)), Normalised(FirstRate(lines)))]
  }

  lemma CategoryTag(tag: Tag, code: Option<string>, rate: Option<string>)
    ensures TaxCategoryNode(tag, code, rate).tag == tag
  {
    hide OptionalLeaf, VatScheme;
  }

  lemma SubtotalTexts(h: Header, lines: seq<CanonicalLine>)
    requires h.taxAmountMinor.Some? && h.lineExtensionMinor.Some?
    ensures var kids := SubtotalNodes(h, lines)[0].kids;
            && TextAt(kids, [TaxableAmount]) == AmountOption(h.lineExtensionMinor, h.currency)
            && TextAt(kids, [TaxAmount]) == AmountOption(h.taxAmountMinor, h.currency)
            && TextAt(kids, [TaxCategory, ID]) == FirstCategory(lines)
            && TextAt(kids, [TaxCategory, Percent]) == FirstRate(lines)
  {
    var taxable, tax := AmountNode(TaxableAmount, h.lineExtensionMinor.value, h.currency), AmountNode(TaxAmount, h.taxAmountMinor.value, h.currency);
    var category := TaxCategoryNode(TaxCategory, FirstCategory(lines), FirstRate(lines));
    assert SubtotalNodes(h, lines)[0].kids == [taxable, tax, category];
    CategoryTag(TaxCategory, FirstCategory(lines), FirstRate(lines));
    hide TaxCategoryNode, AmountText, Find, FirstCategory, FirstRate, SubtotalNodes, TextAt;
    CategoryText(TaxCategory, FirstCategory(lines), FirstRate(lines));
    SubtotalAmounts(taxable, tax, category);
    assert [taxable, tax, category] == [taxable, tax] + [category];
    SubtotalCategory(taxable, tax, category, ID);
    SubtotalCategory(taxable, tax, category, Percent);
  }

  lemma SubtotalAmounts(taxable: Node, tax: Node, category: Node)
    requires taxable.tag == TaxableAmount && tax.tag == TaxAmount
    ensures TextAt([taxable, tax, category], [TaxableAmount]) == Some(taxable.text)
    ensures TextAt([taxable, tax, category], [TaxAmount]) == Some(tax.text)
  {
    hide Find;
    FindFirst([taxable, tax, category], 0, TaxableAmount);
    FindFirst([taxable, tax, category], 1, TaxAmount);
  }

  lemma SubtotalCategory(taxable: Node, tax: Node, category: Node, tag: Tag)
    requires taxable.tag == TaxableAmount && tax.tag == TaxAmount && category.tag == TaxCategory
    ensures TextAt([taxable, tax] + [category], [TaxCategory, tag]) == TextAt(category.kids, [tag])
  {
    var path := [TaxCategory, tag];
    assert path[1..] == [tag];
    FindConcat([taxable, tax], [category], path);
    FindAbsent([taxable, tax], path);
    FindSingle(category, path);
    hide Find;
  }

  lemma SubtotalParses(h: Header, lines: seq<CanonicalLine>)
    requires h.taxAmountMinor.Some? && h.lineExtensionMinor.Some?
    ensures SubtotalOf(ReadNode(SubtotalNodes(h, lines)[0]))
            == ParsedTaxSubtotal(Normalised(AmountOption(h.lineExtensionMinor, h.currency)), Normalised(AmountOption(h.taxAmountMinor, h.currency)),
                                 Normalised(FirstCategory(lines)), Normalised(FirstRate(lines)))
  {
    var kids := SubtotalNodes(h, lines)[0].kids;
    assert ReadNode(SubtotalNodes(h, lines)[0]).kids == ReadAll(kids);
    hide ReadNode, ReadAll, TextAt, SubtotalNodes, AmountOption, FirstCategory, FirstRate, Normalised;
    SubtotalTexts(h, lines);
    TextAtRead(kids, [TaxableAmount]);
    TextAtRead(kids, [TaxAmount]);
    TextAtRead(kids, [TaxCategory, ID]);
    TextAtRead(kids, [TaxCategory, Percent]);
  }

  lemma SubtotalsParse(doc: CanonicalDoc, ctx: Context)
    ensures SubtotalsOf(FindAllBelow(ReadAll(RootKids(doc, ctx)), TaxTotal, TaxSubtotal)) == ExpectedSubtotals(doc.header, doc.lines)
  {
    var h := doc.header;
    var nodes := SubtotalNodes(h, doc.lines);
    assert |nodes| == if h.taxAmountMinor.None? || h.lineExtensionMinor.None? then 0 else 1;
    hide RootKids, ReadAll, ReadNode, FindAllBelow, SubtotalNodes, SubtotalOf, AmountOption, FirstCategory, FirstRate, Normalised;
    FindAllBelowRead(RootKids(doc, ctx), TaxTotal, TaxSubtotal);
    SubtotalsFound(doc, ctx);
    ReadAllLength(nodes);
    if |nodes| == 1 {
      SubtotalParses(h, doc.lines);
    }
  }

  // ---------- The whole document ----------

  /** What parsing a printed document gives: every term, line and subtotal, up to line-break normalisation. */
  function Expected(doc: CanonicalDoc, ctx: Context): ParsedDocument {
    var h := doc.header;
    ParsedDocument(
      if IsCredit(h) then "CreditNote" else "Invoice", Some(Eol(ctx.customizationId)), Some(Eol(ctx.profileId)),
      Some(Eol(TypeCode(h.docType))),
      (map t | t in HEADER_TERMS :: Normalised(PrintedTerm(h, ctx, t)))[BT3 := Some(Eol(TypeCode(h.docType)))],
      ExpectedLines(h, doc.lines), ExpectedSubtotals(h, doc.lines))
  }

  lemma TermsParse(doc: CanonicalDoc, ctx: Context, typeCode: Option<string>)
    ensures TermsOf(ReadAll(RootKids(doc, ctx)), typeCode)
            == (map t | t in HEADER_TERMS :: Normalised(PrintedTerm(doc.header, ctx, t)))[BT3 := typeCode]
  {
    hide RootKids, ReadAll, TextAt, HeaderPath, PrintedTerm, Normalised;
    forall t | t in HEADER_TERMS
      ensures TextAt(ReadAll(RootKids(doc, ctx)), HeaderPath(t)) == Normalised(PrintedTerm(doc.header, ctx, t))
    {
      TextAtRead(RootKids(doc, ctx), HeaderPath(t));
      HeaderTerm(doc, ctx, t);
    }
  }

  lemma HeadParses(doc: CanonicalDoc, ctx: Context, i: nat)
    requires i < 6
    ensures var n := HeadNodes(doc.header, ctx)[i]; TextAt(ReadAll(RootKids(doc, ctx)), [n.tag]) == Some(Eol(n.text))
  {
    hide RootKids, ReadAll, TextAt;
    HeadTerms(doc, ctx, i);
    TextAtRead(RootKids(doc, ctx), [HeadNodes(doc.header, ctx)[i].tag]);
  }

  lemma IdentifiersParse(doc: CanonicalDoc, ctx: Context)
    ensures var kids := ReadAll(RootKids(doc, ctx));
            && TextAt(kids, [CustomizationID]) == Some(Eol(ctx.customizationId))
            && TextAt(kids, [ProfileID]) == Some(Eol(ctx.profileId))
            && TextAt(kids, [TypeCodeTag(doc.header)]) == Some(Eol(TypeCode(doc.header.docType)))
  {
    hide RootKids, ReadAll, TextAt, Eol;
    HeadParses(doc, ctx, 0);
    HeadParses(doc, ctx, 1);
    HeadParses(doc, ctx, 4);
  }

  lemma RootRead(doc: CanonicalDoc, ctx: Context)
    ensures var root := ReadNode(Document(doc, ctx)); root.tag == RootTag(doc.header) && root.kids == ReadAll(RootKids(doc, ctx))
  {
    hide RootKids, ReadAll, RootAttrs;
  }

  lemma DocumentParses(doc: CanonicalDoc, ctx: Context)
    ensures DocumentOf(ReadNode(Document(doc, ctx))) == Expected(doc, ctx)
  {
    hide Document, ReadNode, ReadAll, RootKids, TextAt, TermsOf, LinesOf, SubtotalsOf, FindAll, FindAllBelow, Eol, TypeCode, HeaderPath,
      PrintedTerm, Normalised, ExpectedLines, ExpectedSubtotals;
    RootRead(doc, ctx);
    IdentifiersParse(doc, ctx);
    TermsParse(doc, ctx, Some(Eol(TypeCode(doc.header.docType))));
    LinesParse(doc, ctx);
    SubtotalsParse(doc, ctx);
  }

  predicate IsPlain(s: string) {
    forall i :: 0 <= i < |s| ==> s[i] > ' '
  }

  lemma PlainUri(s: string)
    requires IsPlain(s)
    ensures Spaced(Eol(s)) == s
  {
    EolPlain(s);
    hide Eol;
  }

  lemma XsdIsPlain()
    ensures IsPlain(XSD)
  {
    assert IsPlain("urn:oasis:names:specification:") && IsPlain("ubl:schema:xsd:");
  }

  lemma UriEndsArePlain()
    ensures IsPlain("CommonBasicComponents-2") && IsPlain("CommonAggregateComponents-2")
  {
  }

  lemma PlainConcat(a: string, b: string)
    requires IsPlain(a) && IsPlain(b)
    ensures IsPlain(a + b)
  {
  }

  lemma UrisArePlain()
    ensures Spaced(Eol(CBC_NS)) == CBC_NS && Spaced(Eol(CAC_NS)) == CAC_NS
  {
    hide Eol, Spaced, IsPlain;
    XsdIsPlain();
    UriEndsArePlain();
    PlainConcat(XSD, "CommonBasicComponents-2");
    PlainConcat(XSD, "CommonAggregateComponents-2");
    PlainUri(CBC_NS);
    PlainUri(CAC_NS);
  }

  lemma AttrRead(attrs: seq<Attr>, i: nat)
    requires i < |attrs|
    ensures SpacedAttrs(EolAttrs(attrs))[i] == Attr(attrs[i].name, Spaced(Eol(attrs[i].value)))
  {
    hide Eol, Spaced;
  }

  lemma Declarations(h: Header)
    ensures |RootAttrs(h)| == 3 && RootAttrs(h)[1] == Attr("xmlns:cbc", CBC_NS) && RootAttrs(h)[2] == Attr("xmlns:cac", CAC_NS)
  {
    hide TagText;
  }

  ghost predicate Binds(scope: Scope) {
    "cbc" in scope && scope["cbc"] == CBC_NS && "cac" in scope && scope["cac"] == CAC_NS
  }

  lemma PrefixesAreDeclared(h: Header)
    ensures Binds(Declared(SpacedAttrs(EolAttrs(RootAttrs(h))), START_SCOPE))
    ensures forall i :: 0 <= i < |RootAttrs(h)| ==> Declares(RootAttrs(h)[i].name)
  {
    hide Eol, Spaced, SpacedAttrs, EolAttrs, TagText;
    UrisArePlain();
    Declarations(h);
    var attrs := SpacedAttrs(EolAttrs(RootAttrs(h)));
    AttrRead(RootAttrs(h), 0);
    AttrRead(RootAttrs(h), 1);
    AttrRead(RootAttrs(h), 2);
    hide RootAttrs;
    ThreeDeclared(attrs);
  }

  lemma DeclaredStep(attrs: seq<Attr>, scope: Scope)
    requires attrs != []
    ensures Declared(attrs, scope) == Declared(attrs[1..], Declaring(attrs[0], scope))
  {
  }

  lemma TwoPrefixes()
    ensures Declares("xmlns:cbc") && Declares("xmlns:cac") && "xmlns:cbc" != "xmlns" && "xmlns:cac" != "xmlns"
    ensures "xmlns:cbc"[6..] == "cbc" && "xmlns:cac"[6..] == "cac" && "cbc" != "cac"
  {
    assert "cbc"[1] != "cac"[1];
  }

  lemma ThreeDeclared(attrs: seq<Attr>)
    requires |attrs| == 3 && attrs[0].name == "xmlns" && attrs[1] == Attr("xmlns:cbc", CBC_NS) && attrs[2] == Attr("xmlns:cac", CAC_NS)
    ensures Binds(Declared(attrs, START_SCOPE))
  {
    TwoPrefixes();
    hide Declares;
    var s1 := START_SCOPE["" := attrs[0].value];
    var s2 := s1["cbc" := CBC_NS];
    DeclaredStep(attrs, START_SCOPE);
    DeclaredStep(attrs[1..], s1);
    assert attrs[1..][0] == attrs[1] && attrs[1..][1..] == [attrs[2]];
    DeclaredStep([attrs[2]], s2);
    assert [attrs[2]][1..] == [];
    assert Declared([], s2["cac" := CAC_NS]) == s2["cac" := CAC_NS];
    hide Declared;
  }

  lemma {:induction false} PlainDeclaresNothing(attrs: seq<Attr>, scope: Scope, inner: Scope)
    requires forall i :: 0 <= i < |attrs| ==> ':' !in attrs[i].name && attrs[i].name != "xmlns"
    ensures Declared(attrs, scope) == scope && AttrsIn(attrs, inner) == attrs
    ensures forall i :: 0 <= i < |attrs| ==> InScope(attrs[i].name, scope)
  {
    forall i | 0 <= i < |attrs| ensures InScope(attrs[i].name, scope) && !Declares(attrs[i].name) && AttrIn(attrs[i], inner) == attrs[i] {
      PlainName(attrs[i].name);
      assert "xmlns:"[5] == ':';
    }
    if attrs != [] {
      PlainDeclaresNothing(attrs[1..], scope, inner);
      hide AttrIn, Declares, InScope;
      assert attrs == [attrs[0]] + attrs[1..];
    }
  }

  lemma PrefixedName(name: string)
    requires Prefixed(name)
    ensures PrefixOf(name) == name[..3] && LocalOf(name) == name[4..] && name == name[..3] + ":" + LocalOf(name)
    ensures name[..3] == if name[1] == 'b' then "cbc" else "cac"
  {
    ColonAt(name, 3);
  }

  lemma TagInScope(t: Tag, scope: Scope)
    requires Below(t) && Binds(scope)
    ensures TagIn(TagText(t), scope) == t && InScope(TagText(t), scope)
  {
    hide TagText, TagOf, FirstColon;
    NamesArePrefixed(t);
    TagOfText(t);
    PrefixedName(TagText(t));
    UrisDiffer();
    hide PrefixOf, LocalOf;
    assert "cbc" + ":" == "cbc:" && "cac" + ":" == "cac:";
  }

  /** Below the root, printed elements read back and resolve to what was printed. */
  lemma {:induction false} ResolvesBack(n: Node, scope: Scope)
    requires Valid(n) && Binds(scope)
    ensures Resolve(Normal(EolTree(ToXml(n))), scope) == Some(ReadNode(n))
    decreases n, 1
  {
    var x := Normal(EolTree(ToXml(n)));
    AllResolveBack(n.kids, scope);
    TagInScope(n.tag, scope);
    PlainDeclaresNothing(x.attrs, scope, scope);
    hide TagText, TagIn, InScope, AttrsIn, Declares, Binds, Eol, SpacedAttrs, EolAttrs, AllEol, AllNormal, ToXmlAll, ReadAll, ResolveAll;
  }

  lemma {:induction false} AllResolveBack(kids: seq<Node>, scope: Scope)
    requires AllValid(kids) && Binds(scope)
    ensures ResolveAll(AllNormal(AllEol(ToXmlAll(kids))), scope) == Some(ReadAll(kids))
    decreases kids, 0
  {
    if kids != [] {
      ResolvesBack(kids[0], scope);
      AllResolveBack(kids[1..], scope);
      var x, xs := ToXml(kids[0]), ToXmlAll(kids[1..]);
      assert ([x] + xs)[1..] == xs;
      assert ([EolTree(x)] + AllEol(xs))[1..] == AllEol(xs);
      assert ([Normal(EolTree(x))] + AllNormal(AllEol(xs)))[1..] == AllNormal(AllEol(xs));
      hide ToXml, EolTree, Normal, Resolve, ReadNode, Binds, Valid;
    }
  }

  lemma RootNameIsPlain(h: Header)
    ensures TagText(RootTag(h)) == (if RootTag(h).InvoiceRoot? then "Invoice" else "CreditNote") && ':' !in TagText(RootTag(h))
    ensures RootTag(h).InvoiceRoot? || RootTag(h).CreditNoteRoot?
  {
    RootNames();
    hide TagText;
  }

  lemma PrintedIsResolved(doc: CanonicalDoc, ctx: Context)
    ensures Resolved(Normal(EolTree(ToXml(Document(doc, ctx))))) == Some(ReadNode(Document(doc, ctx)).(attrs := []))
  {
    var n := Document(doc, ctx);
    var x := Normal(EolTree(ToXml(n)));
    var scope := Declared(SpacedAttrs(EolAttrs(RootAttrs(doc.header))), START_SCOPE);
    DocumentValid(doc, ctx);
    PrintedRoot(doc, ctx);
    RootNameIsPlain(doc.header);
    hide TagText, RootAttrs, RootKids, Eol, SpacedAttrs, EolAttrs, AllEol, AllNormal, ToXmlAll, ReadAll, Binds, Document, ToXml, EolTree, Normal,
      ReadNode, Declared, Valid, AllValid, WellFormed;
    RootInScope(doc, ctx, scope);
    AllResolveBack(RootKids(doc, ctx), scope);
    RootResolves(x, scope, ReadAll(RootKids(doc, ctx)));
  }

  /** The parts of the printed root as read, and of its node. */
  lemma PrintedRoot(doc: CanonicalDoc, ctx: Context)
    ensures var x := Normal(EolTree(ToXml(Document(doc, ctx))));
            && x.name == TagText(RootTag(doc.header)) && x.attrs == SpacedAttrs(EolAttrs(RootAttrs(doc.header)))
            && x.kids == AllNormal(AllEol(ToXmlAll(RootKids(doc, ctx))))
            && ReadNode(Document(doc, ctx)) == Node(RootTag(doc.header), x.attrs, x.text, ReadAll(RootKids(doc, ctx)))
  {
    hide TagText, RootAttrs, RootKids, Eol, SpacedAttrs, EolAttrs, AllEol, AllNormal, ToXmlAll, ReadAll;
  }

  lemma RootInScope(doc: CanonicalDoc, ctx: Context, scope: Scope)
    requires scope == Declared(SpacedAttrs(EolAttrs(RootAttrs(doc.header))), START_SCOPE)
    ensures var x := Normal(EolTree(ToXml(Document(doc, ctx))));
            Binds(scope) && NamesInScope(x, scope) && forall i :: 0 <= i < |x.attrs| ==> Declares(x.attrs[i].name)
  {
    PrintedRoot(doc, ctx);
    PrefixesAreDeclared(doc.header);
    RootNameIsPlain(doc.header);
    hide TagText, RootAttrs, Document, ToXml, EolTree, Normal, ReadNode, Declared, Binds, Declares, Eol, Spaced;
    PlainName(TagText(RootTag(doc.header)));
    forall i | 0 <= i < |RootAttrs(doc.header)| ensures SpacedAttrs(EolAttrs(RootAttrs(doc.header)))[i].name == RootAttrs(doc.header)[i].name {
      AttrRead(RootAttrs(doc.header), i);
    }
  }

  lemma {:induction false} OnlyDeclarations(attrs: seq<Attr>, scope: Scope)
    requires forall i :: 0 <= i < |attrs| ==> Declares(attrs[i].name)
    ensures AttrsIn(attrs, scope) == []
  {
    if attrs != [] {
      OnlyDeclarations(attrs[1..], scope);
      hide Declares;
    }
  }

  lemma RootResolves(x: Xml, scope: Scope, kids: seq<Node>)
    requires scope == Declared(x.attrs, START_SCOPE) && NamesInScope(x, scope) && ResolveAll(x.kids, scope) == Some(kids)
    requires x.name == "Invoice" || x.name == "CreditNote"
    requires ':' !in x.name
    requires forall i :: 0 <= i < |x.attrs| ==> Declares(x.attrs[i].name)
    ensures Resolved(x) == Some(Node(if x.name == "Invoice" then InvoiceRoot else CreditNoteRoot, [], x.text, kids))
  {
    OnlyDeclarations(x.attrs, scope);
    PlainName(x.name);
    hide TagIn, Declared, NamesInScope, ResolveAll, AttrsIn;
  }

  lemma ParsedFrom(text: string)
    ensures Parsed(text) == match ReadDocument(text)
                            case Err(_) => Err(ParseError.ParseError)
                            case Ok(x) => if Resolved(x).None? || Resolved(x).value.tag.Other? then Err(ParseError.ParseError)
                                          else Ok(DocumentOf(Resolved(x).value))
  {
    hide ReadDocument, Resolved, DocumentOf;
  }

  lemma DocumentIgnoresAttrs(n: Node)
    ensures DocumentOf(n.(attrs := [])) == DocumentOf(n)
  {
    hide TextAt, TermsOf, LinesOf, SubtotalsOf, FindAll, FindAllBelow;
  }

  lemma TextIsPrint(n: Node)
    ensures UblPrinter.Text(n) == Print(ToXml(n))
  {
    hide Print, ToXml;
  }

  /**
   * Printing, then parsing: the text of `toUbl` parses exactly when every character in it is allowed in
   * XML, and the parsed document then holds every header term, line and subtotal of the canonical one, in
   * order: null as absent and "" as empty, except that a unit code without a quantity is dropped and an
   * empty quantity reads as absent; carriage returns read as line feeds.
   */
  lemma ParsePrint(doc: CanonicalDoc, ctx: Context)
    ensures var text := PROLOG + UblPrinter.Text(Document(doc, ctx));
            Parsed(text) == if IsLegal(text) then Ok(Expected(doc, ctx)) else Err(ParseError.ParseError)
  {
    hide *;
    var n := Document(doc, ctx);
    TextIsPrint(n);
    DocumentValid(doc, ctx);
    PrintedDocumentReadsBack(ToXml(n));
    PrintedIsResolved(doc, ctx);
    DocumentParses(doc, ctx);
    PrintedRoot(doc, ctx);
    RootNameIsPlain(doc.header);
    DocumentIgnoresAttrs(ReadNode(n));
    ParsedFrom(PROLOG + UblPrinter.Text(n));
  }

  /** A caller can tell beforehand: the text is legal exactly when every value of the document's tree is. */
  lemma PrintedIsLegalExactly(doc: CanonicalDoc, ctx: Context)
    ensures IsLegal(PROLOG + UblPrinter.Text(Document(doc, ctx))) <==> ValuesLegal(ToXml(Document(doc, ctx)))
  {
    var n := Document(doc, ctx);
    DocumentValid(doc, ctx);
    hide IsLegal, Document, ToXml, Print, ValuesLegal;
    PrintIsLegalExactly(ToXml(n));
    PrologIsLegal();
    LegalConcat(PROLOG, Print(ToXml(n)));
  }

  /** When no value has a carriage return, the terms come back as they were. */
  lemma PlainTermsComeBack(doc: CanonicalDoc, ctx: Context, t: Term)
    requires t in HEADER_TERMS
    ensures t in Expected(doc, ctx).terms
    ensures PrintedTerm(doc.header, ctx, t).Some? && '\r' !in PrintedTerm(doc.header, ctx, t).value ==>
              Expected(doc, ctx).terms[t] == PrintedTerm(doc.header, ctx, t)
    ensures Expected(doc, ctx).terms[t].Some? <==> PrintedTerm(doc.header, ctx, t).Some?
  {
    hide PrintedTerm, Eol, Expected;
    ExpectedTerm(doc, ctx, t);
    if PrintedTerm(doc.header, ctx, t).Some? {
      EolIsIdentity(PrintedTerm(doc.header, ctx, t).value);
    }
  }

  lemma AmountIsPlain(minor: int, currency: string)
    requires UblPrinter.KnownCurrency(currency)
    ensures Eol(AmountText(minor, currency)) == AmountText(minor, currency)
  {
    Money.PrintedDenotes(minor, Money.MinorUnitExponent(currency).value);
    EolPlain(AmountText(minor, currency));
    hide Money.MinorText, Eol;
  }

  /** An amount as parsed reads back, through the currency as parsed, to the minor units it was printed from. */
  lemma AmountsComeBack(minor: int, currency: string)
    requires UblPrinter.KnownCurrency(currency) && Money.IsSafe(minor)
    ensures Eol(currency) == currency
    ensures Money.ToMinor(Eol(AmountText(minor, currency)), Eol(currency)) == Ok(minor)
  {
    AmountIsPlain(minor, currency);
    KnownCurrencyIsPlain(currency);
    EolPlain(currency);
    Money.MinorRoundTrip(minor, currency);
    hide Eol, Money.ToMinor, Money.MinorText;
  }

  lemma KnownCurrencyIsPlain(currency: string)
    requires UblPrinter.KnownCurrency(currency)
    ensures '\r' !in currency
  {
    var u := JsText.UpperCase(currency);
    assert u in Money.MINOR_UNIT_EXPONENT;
    assert u == "AED" || u == "BHD" || u == "EUR" || u == "GBP" || u == "INR"
           || u == "OMR" || u == "PLN" || u == "SAR" || u == "USD";
    assert '\r' !in u && |u| == |currency|;
    forall i | 0 <= i < |currency| ensures currency[i] != '\r' {
      assert u[i] == JsText.Upper(currency[i]);
      assert u[i] in u;
    }
  }

  lemma ExpectedTerm(doc: CanonicalDoc, ctx: Context, t: Term)
    requires t in HEADER_TERMS
    ensures t in Expected(doc, ctx).terms && Expected(doc, ctx).terms[t] == Normalised(PrintedTerm(doc.header, ctx, t))
  {
    hide PrintedTerm, Normalised, ExpectedLines, ExpectedSubtotals, Eol, TypeCode;
  }

  /** Every amount of a parsed document reads back to the minor units of the canonical one. */
  lemma ParsedAmountsAreExact(doc: CanonicalDoc, ctx: Context, t: Term, minor: int)
    requires UblPrinter.KnownCurrency(doc.header.currency) && Money.IsSafe(minor)
    requires t.BT106? || t.BT109? ==> doc.header.lineExtensionMinor == Some(minor)
    requires t.BT110? ==> doc.header.taxAmountMinor == Some(minor)
    requires t.BT112? || t.BT115? ==> doc.header.payableMinor == Some(minor)
    requires t.BT106? || t.BT109? || t.BT110? || t.BT112? || t.BT115?
    ensures var terms := Expected(doc, ctx).terms;
            && t in terms && terms[t].Some? && BT5 in terms && terms[BT5].Some?
            && Money.ToMinor(terms[t].value, terms[BT5].value) == Ok(minor)
  {
    hide Eol, Money.ToMinor, AmountText, Expected, Money.IsSafe, UblPrinter.KnownCurrency;
    AmountsComeBack(minor, doc.header.currency);
    ExpectedTerm(doc, ctx, t);
    ExpectedTerm(doc, ctx, BT5);
  }

  /** And so does every line amount. */
  lemma ParsedLineAmountsAreExact(doc: CanonicalDoc, ctx: Context, i: nat, minor: int)
    requires UblPrinter.KnownCurrency(doc.header.currency) && Money.IsSafe(minor)
    requires i < |doc.lines| && doc.lines[i].netAmountMinor == Some(minor)
    ensures var p := Expected(doc, ctx);
            && |p.lines| == |doc.lines| && p.lines[i].terms[BT131].Some? && p.terms[BT5].Some?
            && Money.ToMinor(p.lines[i].terms[BT131].value, p.terms[BT5].value) == Ok(minor)
  {
    hide Eol, Money.ToMinor, AmountText, Money.IsSafe, UblPrinter.KnownCurrency, IntText, ExpectedSubtotals;
    AmountsComeBack(minor, doc.header.currency);
    ExpectedTerm(doc, ctx, BT5);
  }
}
