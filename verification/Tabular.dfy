/**
 * Row-and-column exports to canonical documents (apps/web/modules/ingestion/extractors/tabular.ts): one
 * mutable pass that groups interleaved rows by invoice number, with partial failure.
 */
module Tabular {
  import opened Base
  import opened Canonical
  import opened Decimal
  import opened JsText
  import opened Money
  import opened Shapes

  datatype Column =
    | InvoiceNumber | IssueDate | DocTypeColumn | ScenarioColumn | Currency | BuyerName | BuyerTrn | SellerTrn
    | PredecessorRef | LineExtension | TaxAmount | Payable | LineNumber | LineDescription | LineQuantity
    | LineUnitCode | LineNetAmount | LineTaxCategory | LineTaxRate

  const ALIASES: map<string, Column> := map[
    "invoicenumber" := InvoiceNumber, "invoiceno" := InvoiceNumber, "documentnumber" := InvoiceNumber,
    "voucherno" := InvoiceNumber, "bt1" := InvoiceNumber,
    "issuedate" := IssueDate, "invoicedate" := IssueDate, "date" := IssueDate, "bt2" := IssueDate,
    "doctype" := DocTypeColumn, "documenttype" := DocTypeColumn, "type" := DocTypeColumn,
    "scenario" := ScenarioColumn, "supplytype" := ScenarioColumn,
    "currency" := Currency, "currencycode" := Currency, "bt5" := Currency,
    "buyername" := BuyerName, "customername" := BuyerName, "partyname" := BuyerName, "bt44" := BuyerName,
    "buyertrn" := BuyerTrn, "customertrn" := BuyerTrn, "buyervatid" := BuyerTrn, "customergstin" := BuyerTrn, "bt48" := BuyerTrn,
    "sellertrn" := SellerTrn, "suppliertrn" := SellerTrn, "companytrn" := SellerTrn, "companygstin" := SellerTrn, "bt31" := SellerTrn,
    "predecessorref" := PredecessorRef, "originalinvoice" := PredecessorRef, "referenceinvoice" := PredecessorRef, "bt25" := PredecessorRef,
    "lineextensionamount" := LineExtension, "netamount" := LineExtension, "subtotal" := LineExtension, "bt106" := LineExtension,
    "taxamount" := TaxAmount, "vatamount" := TaxAmount, "gstamount" := TaxAmount, "bt110" := TaxAmount,
    "payableamount" := Payable, "grandtotal" := Payable, "invoicetotal" := Payable, "total" := Payable, "bt115" := Payable,
    "linenumber" := LineNumber, "lineno" := LineNumber, "srno" := LineNumber,
    "linedescription" := LineDescription, "itemname" := LineDescription, "description" := LineDescription, "bt153" := LineDescription,
    "linequantity" := LineQuantity, "quantity" := LineQuantity, "qty" := LineQuantity, "bt129" := LineQuantity,
    "lineunitcode" := LineUnitCode, "unitcode" := LineUnitCode, "uom" := LineUnitCode, "unit" := LineUnitCode, "bt130" := LineUnitCode,
    "linenetamount" := LineNetAmount, "lineamount" := LineNetAmount, "linetotal" := LineNetAmount, "bt131" := LineNetAmount,
    "linetaxcategory" := LineTaxCategory, "taxcategory" := LineTaxCategory, "taxcategorycode" := LineTaxCategory, "bt151" := LineTaxCategory,
    "linetaxrate" := LineTaxRate, "taxrate" := LineTaxRate, "vatrate" := LineTaxRate, "gstrate" := LineTaxRate, "bt152" := LineTaxRate]

  type RawRow = map<string, string>

  /** The cells of a row by column: present ones are trimmed and not blank. */
  type Fields = map<Column, string>

  /** `toLowerCase` and `Number`. */
  datatype Library = Library(lower: string -> string, number: string -> int)

  // ---------- Headers and cells ----------

  function Cell(f: Fields, c: Column): Option<string> {
    if c in f then Some(f[c]) else None
  }

  function WithoutSeparators(s: string): string {
    if s == "" then ""
    else (if IsSpace(s[0]) || s[0] == '_' || s[0] == '-' || s[0] == '.' then [] else [s[0]]) + WithoutSeparators(s[1..])
  }

  function ColumnOf(lib: Library, header: string): Option<Column> {
    var alias := WithoutSeparators(lib.lower(header));
    if alias in ALIASES then Some(ALIASES[alias]) else None
  }

  datatype HeaderColumn = HeaderColumn(header: string, column: Column)

  /** The recognised headers, each once, in file order. */
  ghost predicate HeaderMapOf(lib: Library, headers: seq<string>, m: seq<HeaderColumn>) {
    && (forall i :: 0 <= i < |m| ==> m[i].header in headers && ColumnOf(lib, m[i].header) == Some(m[i].column))
    && (forall i, j :: 0 <= i < j < |m| ==> m[i].header != m[j].header)
    && (forall h :: h in headers && ColumnOf(lib, h).Some? ==> exists i :: 0 <= i < |m| && m[i].header == h)
  }

  function HeaderMap(lib: Library, headers: seq<string>): seq<HeaderColumn> {
    if headers == [] then []
    else
      var m := HeaderMap(lib, headers[..|headers| - 1]);
      var h := headers[|headers| - 1];
      if ColumnOf(lib, h).Some? && (forall i :: 0 <= i < |m| ==> m[i].header != h) then m + [HeaderColumn(h, ColumnOf(lib, h).value)] else m
  }

  lemma HeaderMapGrows(lib: Library, headers: seq<string>, h: string, m: seq<HeaderColumn>)
    requires HeaderMapOf(lib, headers, m) && ColumnOf(lib, h).Some? && forall i :: 0 <= i < |m| ==> m[i].header != h
    ensures HeaderMapOf(lib, headers + [h], m + [HeaderColumn(h, ColumnOf(lib, h).value)])
  {
    hide ColumnOf;
    var m' := m + [HeaderColumn(h, ColumnOf(lib, h).value)];
    assert m'[|m|].header == h;
    forall g | g in headers && ColumnOf(lib, g).Some? ensures exists i :: 0 <= i < |m'| && m'[i].header == g {
      var i :| 0 <= i < |m| && m[i].header == g;
      assert m'[i].header == g;
    }
  }

  lemma HeaderMapStays(lib: Library, headers: seq<string>, h: string, m: seq<HeaderColumn>)
    requires HeaderMapOf(lib, headers, m) && (ColumnOf(lib, h).None? || exists i :: 0 <= i < |m| && m[i].header == h)
    ensures HeaderMapOf(lib, headers + [h], m)
  {
    hide ColumnOf;
  }

  lemma {:induction false} HeaderMapIs(lib: Library, headers: seq<string>)
    ensures HeaderMapOf(lib, headers, HeaderMap(lib, headers))
  {
    if headers != [] {
      var front, h := headers[..|headers| - 1], headers[|headers| - 1];
      var m := HeaderMap(lib, front);
      HeaderMapIs(lib, front);
      assert headers == front + [h];
      hide ColumnOf, HeaderMapOf;
      if ColumnOf(lib, h).Some? && (forall i :: 0 <= i < |m| ==> m[i].header != h) {
        HeaderMapGrows(lib, front, h, m);
      } else {
        HeaderMapStays(lib, front, h, m);
      }
    }
  }

  method BuildHeaderMap(lib: Library, headers: seq<string>) returns (m: seq<HeaderColumn>)
    ensures m == HeaderMap(lib, headers)
  {
    m := [];
    assert headers[..0] == [];
    for n := 0 to |headers|
      invariant m == HeaderMap(lib, headers[..n])
    {
      assert headers[..n + 1][..n] == headers[..n];
      var column := ColumnOf(lib, headers[n]);
      if column.Some? && (forall i :: 0 <= i < |m| ==> m[i].header != headers[n]) {
        m := m + [HeaderColumn(headers[n], column.value)];
      }
    }
    assert headers[..|headers|] == headers;
  }

  predicate Filled(row: RawRow, header: string) {
    header in row && Trim(row[header]) != ""
  }

  function ReadFields(row: RawRow, m: seq<HeaderColumn>): Fields {
    if m == [] then map[]
    else
      var out := ReadFields(row, m[..|m| - 1]);
      var last := m[|m| - 1];
      if Filled(row, last.header) then out[last.column := Trim(row[last.header])] else out
  }

  ghost predicate LastFilled(row: RawRow, m: seq<HeaderColumn>, column: Column, i: nat) {
    && i < |m| && m[i].column == column && Filled(row, m[i].header)
    && forall j :: i < j < |m| && m[j].column == column ==> !Filled(row, m[j].header)
  }

  /** The last filled-in header for the column, from the end. */
  function LastFilledIn(row: RawRow, m: seq<HeaderColumn>, column: Column): (i: Option<nat>)
    ensures i.Some? ==> LastFilled(row, m, column, i.value)
    ensures i.None? ==> forall j :: 0 <= j < |m| && m[j].column == column ==> !Filled(row, m[j].header)
  {
    if m == [] then None
    else if m[|m| - 1].column == column && Filled(row, m[|m| - 1].header) then Some(|m| - 1)
    else LastFilledIn(row, m[..|m| - 1], column)
  }

  /** Of several headers for one column, the last that is filled in gives the cell. */
  lemma {:induction false} LastFilledWins(row: RawRow, m: seq<HeaderColumn>, column: Column)
    ensures Cell(ReadFields(row, m), column)
            == match LastFilledIn(row, m, column)
               case None => None
               case Some(i) => Some(Trim(row[m[i].header]))
  {
    hide Trim;
    if m != [] {
      LastFilledWins(row, m[..|m| - 1], column);
    }
  }

  method ReadRow(row: RawRow, m: seq<HeaderColumn>) returns (out: Fields)
    ensures out == ReadFields(row, m)
  {
    out := map[];
    assert m[..0] == [];
    for i := 0 to |m|
      invariant out == ReadFields(row, m[..i])
    {
      assert m[..i + 1][..i] == m[..i];
      if m[i].header in row && Trim(row[m[i].header]) != "" {
        out := out[m[i].column := Trim(row[m[i].header])];
      }
    }
    assert m[..|m|] == m;
  }

  // ---------- One row ----------

  predicate IsIsoDate(s: string) {
    |s| == 10 && AllDigits(s[..4]) && s[4] == '-' && AllDigits(s[5..7]) && s[7] == '-' && AllDigits(s[8..])
  }

  predicate IsUnitCode(s: string) {
    2 <= |s| <= 3 && forall i :: 0 <= i < |s| ==> IsUpper(s[i]) || IsDigit(s[i])
  }

  /** The draft of an invoice: the first row's cells and currency, and the lines so far. */
  datatype Body = Body(header: Fields, lines: seq<CanonicalLine>, currency: string)

  datatype Draft = Draft(body: Body, sourceRef: string)

  function CurrencyOf(f: Fields, defaultCurrency: string): string {
    if Currency in f then f[Currency] else defaultCurrency
  }

  predicate Parses(f: Fields) {
    InvoiceNumber in f && IssueDate in f && IsIsoDate(f[IssueDate])
  }

  predicate HasLineData(f: Fields) {
    LineNetAmount in f || LineDescription in f || LineQuantity in f
  }

  /** What becomes of a row, given its invoice's draft so far. */
  datatype Fate = Unparsed | WrongCurrency | Repeat | Line

  function FateOf(f: Fields, defaultCurrency: string, b: Option<Body>): Fate {
    if !Parses(f) then Unparsed
    else if b.Some? && b.value.currency != CurrencyOf(f, defaultCurrency) then WrongCurrency
    else if !HasLineData(f) && b.Some? && |b.value.lines| > 0 then Repeat
    else Line
  }

  predicate Rejected(fate: Fate) {
    fate.Unparsed? || fate.WrongCurrency?
  }

  function LineOf(lib: Library, f: Fields, currency: string, before: nat): CanonicalLine {
    var net := TryToMinor(Cell(f, LineNetAmount), currency);
    CanonicalLine(
      if LineNumber in f then lib.number(f[LineNumber]) else before + 1,
      Cell(f, LineDescription), Cell(f, LineQuantity),
      if LineUnitCode in f && IsUnitCode(f[LineUnitCode]) then Some(f[LineUnitCode]) else None,
      if net.Minor? then Some(net.minor) else None,
      Cell(f, LineTaxCategory), Cell(f, LineTaxRate))
  }

  /** The draft after a row of its invoice. */
  function StepBody(lib: Library, defaultCurrency: string, b: Option<Body>, f: Fields): Option<Body> {
    if !FateOf(f, defaultCurrency, b).Line? then b
    else
      var currency := CurrencyOf(f, defaultCurrency);
      var body := if b.Some? then b.value else Body(f, [], currency);
      Some(body.(lines := body.lines + [LineOf(lib, f, currency, |body.lines|)]))
  }

  function RowDefects(defaultCurrency: string, b: Option<Body>, f: Fields, ref: string): seq<ExtractionDefect> {
    match FateOf(f, defaultCurrency, b)
    case Unparsed => [ExtractionDefect(ParseError, ref, None)]
    case WrongCurrency =>
      [ExtractionDefect(CurrencyInconsistent, ref, Some(TsValueShape(Some(CurrencyOf(f, defaultCurrency)), None)))]
    case Repeat => []
    case Line => LineDefects(f, CurrencyOf(f, defaultCurrency), ref)
  }

  /** What a row that becomes a line may still be marked with. */
  function LineDefects(f: Fields, currency: string, ref: string): seq<ExtractionDefect> {
    (if TryToMinor(Cell(f, LineNetAmount), currency) == Failed(UnknownCurrency)
     then [ExtractionDefect(CurrencyInconsistent, ref, Some(TsValueShape(Some(currency), None)))] else [])
    + (if LineUnitCode in f && !IsUnitCode(f[LineUnitCode])
       then [ExtractionDefect(UnitCodeFreetext, ref, Some(TsValueShape(Some(f[LineUnitCode]), None)))] else [])
  }

  // ---------- The pass over the rows ----------

  datatype SourceRow = SourceRow(fields: Fields, ref: string)

  /** The drafts in order of first appearance. */
  datatype State = State(order: seq<string>, drafts: map<string, Draft>, defects: seq<ExtractionDefect>)

  const START := State([], map[], [])

  function BodyOf(drafts: map<string, Draft>, n: string): Option<Body> {
    if n in drafts then Some(drafts[n].body) else None
  }

  /** The draft a row's fate depends on. */
  function OwnBody(s: State, f: Fields): Option<Body> {
    if InvoiceNumber in f then BodyOf(s.drafts, f[InvoiceNumber]) else None
  }

  function StepRow(lib: Library, defaultCurrency: string, s: State, r: SourceRow): State {
    var f := r.fields;
    var own := OwnBody(s, f);
    var s' := s.(defects := s.defects + RowDefects(defaultCurrency, own, f, r.ref));
    if !FateOf(f, defaultCurrency, own).Line? then s'
    else
      var n := f[InvoiceNumber];
      var ref := if n in s.drafts then s.drafts[n].sourceRef else r.ref;
      s'.(order := if n in s.drafts then s.order else s.order + [n],
          drafts := s.drafts[n := Draft(StepBody(lib, defaultCurrency, own, f).value, ref)])
  }

  function Fold(lib: Library, defaultCurrency: string, s: State, rows: seq<SourceRow>): State
    decreases rows
  {
    if rows == [] then s else Fold(lib, defaultCurrency, StepRow(lib, defaultCurrency, s, rows[0]), rows[1..])
  }

  // ---------- The documents of the drafts ----------

  function SpacesToUnderscore(s: string): string {
    if s == "" then "" else [if IsSpace(s[0]) || s[0] == '-' then '_' else s[0]] + SpacesToUnderscore(s[1..])
  }

  function AsDocType(lib: Library, raw: Option<string>): Option<DocType> {
    if raw.None? then Some(Invoice)
    else
      var t := SpacesToUnderscore(lib.lower(raw.value));
      if t == "invoice" then Some(Invoice) else if t == "credit_note" then Some(CreditNote)
      else if t == "debit_note" then Some(DebitNote) else if t == "self_billed" then Some(SelfBilled) else None
  }

  function AsScenario(lib: Library, raw: Option<string>): Option<Scenario> {
    if raw.None? then None
    else
      var t := SpacesToUnderscore(lib.lower(raw.value));
      if t == "standard" then Some(Standard) else if t == "zero_rated" then Some(ZeroRated)
      else if t == "exempt" then Some(Exempt) else if t == "reverse_charge" then Some(ReverseCharge)
      else if t == "designated_zone" then Some(DesignatedZone) else if t == "export" then Some(Export) else None
  }

  /** The sum of the lines' amounts, when every line has one. */
  function LineSum(lines: seq<CanonicalLine>): Option<int> {
    if lines == [] then Some(0)
    else
      var sum, last := LineSum(lines[..|lines| - 1]), lines[|lines| - 1].netAmountMinor;
      if sum.None? || last.None? then None else Some(sum.value + last.value)
  }

  function Rates(lines: seq<CanonicalLine>): set<string> {
    set i | 0 <= i < |lines| && lines[i].taxRate.Some? :: lines[i].taxRate.value
  }

  function AmountOf(f: Fields, c: Column, currency: string): Option<int> {
    var t := TryToMinor(Cell(f, c), currency);
    if t.Minor? then Some(t.minor) else None
  }

  function HeaderOf(lib: Library, n: string, b: Body, docType: DocType): Header {
    var f := b.header;
    var scenario := AsScenario(lib, Cell(f, ScenarioColumn));
    var extension := AmountOf(f, LineExtension, b.currency);
    Header(docType, if scenario.Some? then scenario.value else Standard, n, if IssueDate in f then f[IssueDate] else "",
           b.currency, Cell(f, BuyerName), Cell(f, BuyerTrn), Cell(f, SellerTrn), Cell(f, PredecessorRef),
           if extension.Some? then extension else LineSum(b.lines),
           AmountOf(f, TaxAmount, b.currency), AmountOf(f, Payable, b.currency), false, |Rates(b.lines)| > 1)
  }

  /** The document of a draft, unless its type is not one. */
  function DocumentOf(lib: Library, n: string, d: Draft): Option<CanonicalDoc> {
    match AsDocType(lib, Cell(d.body.header, DocTypeColumn))
    case None => None
    case Some(docType) => Some(CanonicalDoc(HeaderOf(lib, n, d.body, docType), d.body.lines, d.sourceRef))
  }

  function DocumentDefects(lib: Library, d: Draft): seq<ExtractionDefect> {
    var f := d.body.header;
    if AsDocType(lib, Cell(f, DocTypeColumn)).None? then [ExtractionDefect(ParseError, d.sourceRef, None)]
    else
      (if ScenarioColumn in f && AsScenario(lib, Cell(f, ScenarioColumn)).None?
       then [ExtractionDefect(IdentifierInconsistent, d.sourceRef, Some(TsValueShape(Cell(f, ScenarioColumn), None)))] else [])
      + (if BuyerTrn !in f then [ExtractionDefect(TrnMissing, d.sourceRef, Some(TsValueShape(None, None)))] else [])
      + (if |d.body.lines| > 0 && forall i :: 0 <= i < |d.body.lines| ==> d.body.lines[i].taxCategoryCode.None?
         then [ExtractionDefect(TaxCategoryUnmapped, d.sourceRef, Some(TsValueShape(None, None)))] else [])
  }

  datatype Extraction = Extraction(documents: seq<CanonicalDoc>, defects: seq<ExtractionDefect>)

  function Finish(lib: Library, order: seq<string>, drafts: map<string, Draft>, e: Extraction): Extraction
    requires forall n :: n in order ==> n in drafts
    decreases order
  {
    if order == [] then e
    else
      var d := drafts[order[0]];
      var doc := DocumentOf(lib, order[0], d);
      Finish(lib, order[1..], drafts,
             Extraction(e.documents + (if doc.Some? then [doc.value] else []), e.defects + DocumentDefects(lib, d)))
  }

  function Sources(raw: seq<RawRow>, m: seq<HeaderColumn>): (rows: seq<SourceRow>)
    ensures |rows| == |raw|
    ensures forall i :: 0 <= i < |rows| ==> rows[i] == SourceRow(ReadFields(raw[i], m), RowRef(i))
  {
    seq(|raw|, i requires 0 <= i < |raw| => SourceRow(ReadFields(raw[i], m), RowRef(i)))
  }

  /** `row[n]`, counted from one and past the header. */
  function RowRef(index: nat): string {
    "row[" + Numeral(index + 2) + "]"
  }

  predicate HasInvoiceNumber(m: seq<HeaderColumn>) {
    exists i :: 0 <= i < |m| && m[i].column == InvoiceNumber
  }

  /** Every draft is listed, once. */
  ghost predicate Listed(s: State) {
    && (forall n :: n in s.order <==> n in s.drafts)
    && forall i, j :: 0 <= i < j < |s.order| ==> s.order[i] != s.order[j]
  }

  lemma StepListed(lib: Library, defaultCurrency: string, s: State, r: SourceRow)
    requires Listed(s)
    ensures Listed(StepRow(lib, defaultCurrency, s, r))
  {
    hide StepBody, RowDefects;
  }

  lemma {:induction false} FoldListed(lib: Library, defaultCurrency: string, s: State, rows: seq<SourceRow>)
    requires Listed(s)
    ensures Listed(Fold(lib, defaultCurrency, s, rows))
    decreases rows
  {
    if rows != [] {
      StepListed(lib, defaultCurrency, s, rows[0]);
      hide StepRow, Listed;
      FoldListed(lib, defaultCurrency, StepRow(lib, defaultCurrency, s, rows[0]), rows[1..]);
    }
  }

  /** `extractTabular`. */
  function Extract(lib: Library, raw: seq<RawRow>, headers: seq<string>, defaultCurrency: string): Extraction {
    var m := HeaderMap(lib, headers);
    if !HasInvoiceNumber(m) then Extraction([], [ExtractionDefect(ParseError, "header", None)])
    else
      var s := Fold(lib, defaultCurrency, START, Sources(raw, m));
      FoldListed(lib, defaultCurrency, START, Sources(raw, m));
      Finish(lib, s.order, s.drafts, Extraction([], s.defects))
  }

  method ExtractTabular(lib: Library, raw: seq<RawRow>, headers: seq<string>, defaultCurrency: string) returns (e: Extraction)
    ensures e == Extract(lib, raw, headers, defaultCurrency)
  {
    var m := BuildHeaderMap(lib, headers);
    if forall i :: 0 <= i < |m| ==> m[i].column != InvoiceNumber {
      return Extraction([], [ExtractionDefect(ParseError, "header", None)]);
    }
    ghost var rows := Sources(raw, m);
    ghost var goal := Fold(lib, defaultCurrency, START, rows);
    var order: seq<string> := [];
    var drafts: map<string, Draft> := map[];
    var defects: seq<ExtractionDefect> := [];
    assert rows[0..] == rows;
    for index := 0 to |raw|
      invariant Fold(lib, defaultCurrency, State(order, drafts, defects), rows[index..]) == goal
    {
      assert rows[index..][0] == rows[index] && rows[index..][1..] == rows[index + 1..];
      var fields := ReadRow(raw[index], m);
      order, drafts, defects := ExtractRow(lib, defaultCurrency, order, drafts, defects, fields, RowRef(index));
    }
    assert rows[|raw|..] == [];
    FoldListed(lib, defaultCurrency, START, rows);
    e := FinishDrafts(lib, order, drafts, defects);
  }

  /** The body of the loop over the rows. */
  method ExtractRow(lib: Library, defaultCurrency: string, order0: seq<string>, drafts0: map<string, Draft>,
                    defects0: seq<ExtractionDefect>, row: Fields, ref: string)
    returns (order: seq<string>, drafts: map<string, Draft>, defects: seq<ExtractionDefect>)
    ensures State(order, drafts, defects) == StepRow(lib, defaultCurrency, State(order0, drafts0, defects0), SourceRow(row, ref))
  {
    hide IsIsoDate, HasLineData, LineOf, LineDefects, TsValueShape, CurrencyOf;
    order, drafts, defects := order0, drafts0, defects0;
    if InvoiceNumber !in row || IssueDate !in row || !IsIsoDate(row[IssueDate]) {
      defects := defects + [ExtractionDefect(ParseError, ref, None)];
      return;
    }
    var n := row[InvoiceNumber];
    var currency := CurrencyOf(row, defaultCurrency);
    if n in drafts && drafts[n].body.currency != currency {
      defects := defects + [ExtractionDefect(CurrencyInconsistent, ref, Some(TsValueShape(Some(currency), None)))];
      return;
    }
    var known := n in drafts;
    var draft := if known then drafts[n] else Draft(Body(row, [], currency), ref);
    if !HasLineData(row) && |draft.body.lines| > 0 {
      assert defects + [] == defects;
      return;
    }
    var line, found := ReadLine(lib, row, currency, |draft.body.lines|, ref);
    order := if known then order else order + [n];
    drafts := drafts[n := draft.(body := draft.body.(lines := draft.body.lines + [line]))];
    defects := defects + found;
  }

  /** The line of an accepted row, and its defects. */
  method ReadLine(lib: Library, row: Fields, currency: string, before: nat, ref: string)
    returns (line: CanonicalLine, defects: seq<ExtractionDefect>)
    ensures line == LineOf(lib, row, currency, before) && defects == LineDefects(row, currency, ref)
  {
    hide TryToMinor, TsValueShape, IsUnitCode;
    defects := [];
    var netAmount := TryToMinor(Cell(row, LineNetAmount), currency);
    if netAmount == Failed(UnknownCurrency) {
      defects := defects + [ExtractionDefect(CurrencyInconsistent, ref, Some(TsValueShape(Some(currency), None)))];
    }
    if LineUnitCode in row && !IsUnitCode(row[LineUnitCode]) {
      defects := defects + [ExtractionDefect(UnitCodeFreetext, ref, Some(TsValueShape(Some(row[LineUnitCode]), None)))];
    }
    line := CanonicalLine(
      if LineNumber in row then lib.number(row[LineNumber]) else before + 1,
      Cell(row, LineDescription), Cell(row, LineQuantity),
      if LineUnitCode in row && IsUnitCode(row[LineUnitCode]) then Some(row[LineUnitCode]) else None,
      if netAmount.Minor? then Some(netAmount.minor) else None,
      Cell(row, LineTaxCategory), Cell(row, LineTaxRate));
  }

  /** The loop over the drafts. */
  method FinishDrafts(lib: Library, order: seq<string>, drafts: map<string, Draft>, defects: seq<ExtractionDefect>)
    returns (e: Extraction)
    requires forall n :: n in order ==> n in drafts
    ensures e == Finish(lib, order, drafts, Extraction([], defects))
  {
    hide DocumentDefects, DocumentOf, Finish;
    e := Extraction([], defects);
    assert order[0..] == order;
    for i := 0 to |order|
      invariant Finish(lib, order[i..], drafts, e) == Finish(lib, order, drafts, Extraction([], defects))
    {
      FinishStep(lib, order[i..], drafts, e);
      assert order[i..][0] == order[i] && order[i..][1..] == order[i + 1..];
      var d := drafts[order[i]];
      var found := DocumentDefects(lib, d);
      var doc := DocumentOf(lib, order[i], d);
      if doc.Some? {
        e := Extraction(e.documents + [doc.value], e.defects + found);
      } else {
        assert e.documents + [] == e.documents;
        e := Extraction(e.documents, e.defects + found);
      }
    }
    assert order[|order|..] == [];
    FinishedNothing(lib, drafts, e);
  }

  lemma FinishStep(lib: Library, order: seq<string>, drafts: map<string, Draft>, e: Extraction)
    requires order != [] && forall n :: n in order ==> n in drafts
    ensures var d := drafts[order[0]]; var doc := DocumentOf(lib, order[0], d);
            Finish(lib, order, drafts, e)
            == Finish(lib, order[1..], drafts,
                      Extraction(e.documents + (if doc.Some? then [doc.value] else []), e.defects + DocumentDefects(lib, d)))
  {
    hide DocumentDefects, DocumentOf;
  }

  lemma FinishedNothing(lib: Library, drafts: map<string, Draft>, e: Extraction)
    ensures Finish(lib, [], drafts, e) == e
  {
  }

  // ---------- Each invoice on its own ----------

  /** The cells of the rows that carry the invoice number. */
  function FieldsFor(rows: seq<SourceRow>, n: string): seq<Fields> {
    if rows == [] then []
    else (if Cell(rows[0].fields, InvoiceNumber) == Some(n) then [rows[0].fields] else []) + FieldsFor(rows[1..], n)
  }

  /** One invoice's draft from its own rows alone. */
  function OneBody(lib: Library, defaultCurrency: string, b: Option<Body>, fields: seq<Fields>): Option<Body>
    decreases fields
  {
    if fields == [] then b else OneBody(lib, defaultCurrency, StepBody(lib, defaultCurrency, b, fields[0]), fields[1..])
  }

  lemma StepIsOwn(lib: Library, defaultCurrency: string, s: State, r: SourceRow, n: string)
    ensures BodyOf(StepRow(lib, defaultCurrency, s, r).drafts, n)
            == if Cell(r.fields, InvoiceNumber) == Some(n) then StepBody(lib, defaultCurrency, BodyOf(s.drafts, n), r.fields)
               else BodyOf(s.drafts, n)
  {
    hide RowDefects, LineOf;
  }

  /** However rows of different invoices interleave, each draft is that of its invoice's own rows. */
  lemma {:induction false} DraftsAreIndependent(lib: Library, defaultCurrency: string, s: State, rows: seq<SourceRow>, n: string)
    ensures BodyOf(Fold(lib, defaultCurrency, s, rows).drafts, n)
            == OneBody(lib, defaultCurrency, BodyOf(s.drafts, n), FieldsFor(rows, n))
    decreases rows
  {
    if rows != [] {
      StepIsOwn(lib, defaultCurrency, s, rows[0], n);
      DraftsAreIndependent(lib, defaultCurrency, StepRow(lib, defaultCurrency, s, rows[0]), rows[1..], n);
      hide StepRow, StepBody, Cell;
      if Cell(rows[0].fields, InvoiceNumber) == Some(n) {
        assert ([rows[0].fields] + FieldsFor(rows[1..], n))[1..] == FieldsFor(rows[1..], n);
      } else {
        assert [] + FieldsFor(rows[1..], n) == FieldsFor(rows[1..], n);
      }
    }
  }

  /** The raw rows of one invoice. */
  function RowsOf(raw: seq<RawRow>, m: seq<HeaderColumn>, n: string): seq<RawRow> {
    if raw == [] then []
    else (if Cell(ReadFields(raw[0], m), InvoiceNumber) == Some(n) then [raw[0]] else []) + RowsOf(raw[1..], m, n)
  }

  /** The same, as cells. */
  function CellsFor(raw: seq<RawRow>, m: seq<HeaderColumn>, n: string): seq<Fields> {
    if raw == [] then []
    else (if Cell(ReadFields(raw[0], m), InvoiceNumber) == Some(n) then [ReadFields(raw[0], m)] else []) + CellsFor(raw[1..], m, n)
  }

  lemma {:induction false} FieldsForIsCells(raw: seq<RawRow>, m: seq<HeaderColumn>, rows: seq<SourceRow>, n: string)
    requires |rows| == |raw| && forall i :: 0 <= i < |raw| ==> rows[i].fields == ReadFields(raw[i], m)
    ensures FieldsFor(rows, n) == CellsFor(raw, m, n)
  {
    if raw != [] {
      FieldsForIsCells(raw[1..], m, rows[1..], n);
    }
  }

  lemma {:induction false} CellsOfOwnRows(raw: seq<RawRow>, m: seq<HeaderColumn>, n: string)
    ensures CellsFor(RowsOf(raw, m, n), m, n) == CellsFor(raw, m, n)
  {
    if raw != [] {
      CellsOfOwnRows(raw[1..], m, n);
      var rest := RowsOf(raw[1..], m, n);
      assert ([raw[0]] + rest)[1..] == rest && [] + rest == rest;
    }
  }

  /** The draft of an invoice is the same when its rows are extracted alone. */
  lemma SameDraftAlone(lib: Library, defaultCurrency: string, raw: seq<RawRow>, m: seq<HeaderColumn>, n: string)
    ensures BodyOf(Fold(lib, defaultCurrency, START, Sources(raw, m)).drafts, n)
            == BodyOf(Fold(lib, defaultCurrency, START, Sources(RowsOf(raw, m, n), m)).drafts, n)
  {
    DraftsAreIndependent(lib, defaultCurrency, START, Sources(raw, m), n);
    DraftsAreIndependent(lib, defaultCurrency, START, Sources(RowsOf(raw, m, n), m), n);
    FieldsForIsCells(raw, m, Sources(raw, m), n);
    FieldsForIsCells(RowsOf(raw, m, n), m, Sources(RowsOf(raw, m, n), m), n);
    CellsOfOwnRows(raw, m, n);
  }

  function DocumentsFor(documents: seq<CanonicalDoc>, n: string): seq<CanonicalDoc> {
    if documents == [] then []
    else DocumentsFor(documents[..|documents| - 1], n)
         + if documents[|documents| - 1].header.invoiceNumber == n then [documents[|documents| - 1]] else []
  }

  lemma DocumentsForOne(documents: seq<CanonicalDoc>, doc: Option<CanonicalDoc>, n: string)
    ensures DocumentsFor(documents + (if doc.Some? then [doc.value] else []), n)
            == DocumentsFor(documents, n) + if doc.Some? && doc.value.header.invoiceNumber == n then [doc.value] else []
  {
    if doc.Some? {
      assert (documents + [doc.value])[..|documents|] == documents;
    } else {
      assert documents + [] == documents;
    }
  }

  function OptionalDocument(lib: Library, n: string, d: Draft): seq<CanonicalDoc> {
    var doc := DocumentOf(lib, n, d);
    if doc.Some? then [doc.value] else []
  }

  lemma DocumentNumber(lib: Library, n: string, d: Draft)
    ensures DocumentOf(lib, n, d).Some? ==> DocumentOf(lib, n, d).value.header.invoiceNumber == n
  {
    hide AmountOf, LineSum;
  }

  /** The finished documents of an invoice are those of its draft. */
  lemma {:induction false} FinishedFor(lib: Library, order: seq<string>, drafts: map<string, Draft>, e: Extraction, n: string)
    requires forall k :: k in order ==> k in drafts
    requires forall i, j :: 0 <= i < j < |order| ==> order[i] != order[j]
    ensures DocumentsFor(Finish(lib, order, drafts, e).documents, n)
            == DocumentsFor(e.documents, n) + if n in order then OptionalDocument(lib, n, drafts[n]) else []
    decreases order
  {
    if order != [] {
      var first := order[0];
      var doc := DocumentOf(lib, first, drafts[first]);
      DocumentNumber(lib, first, drafts[first]);
      DocumentsForOne(e.documents, doc, n);
      assert n in order <==> n == first || n in order[1..];
      assert first !in order[1..];
      var e' := Extraction(e.documents + (if doc.Some? then [doc.value] else []), e.defects + DocumentDefects(lib, drafts[first]));
      hide DocumentOf, DocumentDefects, DocumentsFor;
      FinishedFor(lib, order[1..], drafts, e', n);
    }
  }

  /** The documents of an extraction for one invoice, where the source reference is left open. */
  function WithoutRef(documents: seq<CanonicalDoc>): seq<CanonicalDoc> {
    seq(|documents|, i requires 0 <= i < |documents| => documents[i].(sourceRef := ""))
  }

  lemma ExtractedFor(lib: Library, raw: seq<RawRow>, headers: seq<string>, defaultCurrency: string, n: string)
    requires HasInvoiceNumber(HeaderMap(lib, headers))
    ensures var drafts := Fold(lib, defaultCurrency, START, Sources(raw, HeaderMap(lib, headers))).drafts;
            DocumentsFor(Extract(lib, raw, headers, defaultCurrency).documents, n)
            == if n in drafts then OptionalDocument(lib, n, drafts[n]) else []
  {
    var rows := Sources(raw, HeaderMap(lib, headers));
    FoldListed(lib, defaultCurrency, START, rows);
    var s := Fold(lib, defaultCurrency, START, rows);
    FinishedFor(lib, s.order, s.drafts, Extraction([], s.defects), n);
    hide Fold, Finish, OptionalDocument;
    assert DocumentsFor([], n) == [];
  }

  /**
   * Grouping is independent extraction: for every invoice number, the document in the extraction of the
   * whole file is the one extracted from that invoice's rows alone, up to the source reference.
   */
  lemma GroupingIsIndependent(lib: Library, raw: seq<RawRow>, headers: seq<string>, defaultCurrency: string, n: string)
    ensures WithoutRef(DocumentsFor(Extract(lib, raw, headers, defaultCurrency).documents, n))
            == WithoutRef(DocumentsFor(Extract(lib, RowsOf(raw, HeaderMap(lib, headers), n), headers, defaultCurrency).documents, n))
  {
    var m := HeaderMap(lib, headers);
    if HasInvoiceNumber(m) {
      ExtractedFor(lib, raw, headers, defaultCurrency, n);
      ExtractedFor(lib, RowsOf(raw, m, n), headers, defaultCurrency, n);
      SameDraftAlone(lib, defaultCurrency, raw, m, n);
      hide Extract, Fold, HeaderOf, RowsOf, Sources, HeaderMap;
    }
  }

  // ---------- What becomes of every row ----------

  function FateIn(defaultCurrency: string, s: State, r: SourceRow): Fate {
    FateOf(r.fields, defaultCurrency, OwnBody(s, r.fields))
  }

  function Fates(lib: Library, defaultCurrency: string, s: State, rows: seq<SourceRow>): (fates: seq<Fate>)
    ensures |fates| == |rows|
    decreases rows
  {
    if rows == [] then []
    else [FateIn(defaultCurrency, s, rows[0])] + Fates(lib, defaultCurrency, StepRow(lib, defaultCurrency, s, rows[0]), rows[1..])
  }

  function Marks(lib: Library, defaultCurrency: string, s: State, rows: seq<SourceRow>): (marks: seq<seq<ExtractionDefect>>)
    ensures |marks| == |rows|
    decreases rows
  {
    if rows == [] then []
    else [RowDefects(defaultCurrency, OwnBody(s, rows[0].fields), rows[0].fields, rows[0].ref)]
         + Marks(lib, defaultCurrency, StepRow(lib, defaultCurrency, s, rows[0]), rows[1..])
  }

  function Flatten(marks: seq<seq<ExtractionDefect>>): seq<ExtractionDefect> {
    if marks == [] then [] else marks[0] + Flatten(marks[1..])
  }

  function CountLines(fates: seq<Fate>): nat {
    if fates == [] then 0 else (if fates[0].Line? then 1 else 0) + CountLines(fates[1..])
  }

  function TotalLines(order: seq<string>, drafts: map<string, Draft>): nat
    requires forall n :: n in order ==> n in drafts
  {
    if order == [] then 0 else |drafts[order[0]].body.lines| + TotalLines(order[1..], drafts)
  }

  /** A rejected row has one defect and a repeat none; a line may be marked for its currency and its unit. */
  predicate MarkFits(fate: Fate, mark: seq<ExtractionDefect>) {
    match fate
    case Unparsed => |mark| == 1 && mark[0].defectClass == ParseError
    case WrongCurrency => |mark| == 1 && mark[0].defectClass == CurrencyInconsistent
    case Repeat => mark == []
    case Line => |mark| <= 2
  }

  lemma {:induction false} TotalUnchanged(order: seq<string>, drafts: map<string, Draft>, n: string, d: Draft)
    requires (forall k :: k in order ==> k in drafts) && n !in order
    ensures TotalLines(order, drafts[n := d]) == TotalLines(order, drafts)
  {
    if order != [] {
      assert forall k :: k in order[1..] ==> k in order;
      TotalUnchanged(order[1..], drafts, n, d);
    }
  }

  lemma {:induction false} TotalGrows(order: seq<string>, drafts: map<string, Draft>, n: string, d: Draft)
    requires (forall k :: k in order ==> k in drafts) && n in order
    requires forall i, j :: 0 <= i < j < |order| ==> order[i] != order[j]
    requires |d.body.lines| == |drafts[n].body.lines| + 1
    ensures TotalLines(order, drafts[n := d]) == TotalLines(order, drafts) + 1
  {
    if order[0] == n {
      TotalUnchanged(order[1..], drafts, n, d);
    } else {
      TotalGrows(order[1..], drafts, n, d);
    }
  }

  lemma {:induction false} TotalAppends(order: seq<string>, drafts: map<string, Draft>, n: string)
    requires (forall k :: k in order ==> k in drafts) && n in drafts
    ensures TotalLines(order + [n], drafts) == TotalLines(order, drafts) + |drafts[n].body.lines|
  {
    if order == [] {
      assert [] + [n] == [n];
    } else {
      assert (order + [n])[1..] == order[1..] + [n];
      TotalAppends(order[1..], drafts, n);
    }
  }

  lemma StepCounts(lib: Library, defaultCurrency: string, s: State, r: SourceRow)
    requires Listed(s)
    ensures var s' := StepRow(lib, defaultCurrency, s, r);
            && Listed(s')
            && TotalLines(s'.order, s'.drafts)
               == TotalLines(s.order, s.drafts) + if FateIn(defaultCurrency, s, r).Line? then 1 else 0
  {
    StepListed(lib, defaultCurrency, s, r);
    if FateIn(defaultCurrency, s, r).Line? {
      var s' := StepRow(lib, defaultCurrency, s, r);
      var n := r.fields[InvoiceNumber];
      hide RowDefects, LineOf;
      if n in s.drafts {
        TotalGrows(s.order, s.drafts, n, s'.drafts[n]);
      } else {
        TotalUnchanged(s.order, s.drafts, n, s'.drafts[n]);
        TotalAppends(s.order, s'.drafts, n);
      }
    }
  }

  lemma MarkFitsRow(defaultCurrency: string, b: Option<Body>, f: Fields, ref: string)
    ensures MarkFits(FateOf(f, defaultCurrency, b), RowDefects(defaultCurrency, b, f, ref))
  {
    hide TsValueShape, TryToMinor, IsUnitCode, CurrencyOf;
  }

  lemma {:induction false} LinesAreCounted(lib: Library, defaultCurrency: string, s: State, rows: seq<SourceRow>)
    requires Listed(s)
    ensures var s' := Fold(lib, defaultCurrency, s, rows);
            && Listed(s')
            && TotalLines(s'.order, s'.drafts)
               == TotalLines(s.order, s.drafts) + CountLines(Fates(lib, defaultCurrency, s, rows))
    decreases rows
  {
    if rows != [] {
      var s1 := StepRow(lib, defaultCurrency, s, rows[0]);
      StepCounts(lib, defaultCurrency, s, rows[0]);
      var fates := Fates(lib, defaultCurrency, s1, rows[1..]);
      assert ([FateIn(defaultCurrency, s, rows[0])] + fates)[1..] == fates;
      hide StepRow, FateIn, Listed, TotalLines;
      LinesAreCounted(lib, defaultCurrency, s1, rows[1..]);
    }
  }

  lemma {:induction false} DefectsAreMarks(lib: Library, defaultCurrency: string, s: State, rows: seq<SourceRow>)
    ensures Fold(lib, defaultCurrency, s, rows).defects == s.defects + Flatten(Marks(lib, defaultCurrency, s, rows))
    decreases rows
  {
    if rows == [] {
      assert s.defects + [] == s.defects;
    } else {
      var s1 := StepRow(lib, defaultCurrency, s, rows[0]);
      var mark := RowDefects(defaultCurrency, OwnBody(s, rows[0].fields), rows[0].fields, rows[0].ref);
      var rest := Marks(lib, defaultCurrency, s1, rows[1..]);
      assert s1.defects == s.defects + mark && ([mark] + rest)[1..] == rest;
      hide StepRow, RowDefects, OwnBody;
      DefectsAreMarks(lib, defaultCurrency, s1, rows[1..]);
      assert (s.defects + mark) + Flatten(rest) == s.defects + (mark + Flatten(rest));
    }
  }

  lemma {:induction false} MarksFit(lib: Library, defaultCurrency: string, s: State, rows: seq<SourceRow>)
    ensures var fates, marks := Fates(lib, defaultCurrency, s, rows), Marks(lib, defaultCurrency, s, rows);
            forall i :: 0 <= i < |rows| ==> MarkFits(fates[i], marks[i])
    decreases rows
  {
    if rows != [] {
      MarkFitsRow(defaultCurrency, OwnBody(s, rows[0].fields), rows[0].fields, rows[0].ref);
      var s1 := StepRow(lib, defaultCurrency, s, rows[0]);
      MarksFit(lib, defaultCurrency, s1, rows[1..]);
      var fates, marks := Fates(lib, defaultCurrency, s, rows), Marks(lib, defaultCurrency, s, rows);
      assert fates[0] == FateIn(defaultCurrency, s, rows[0]);
      assert fates[1..] == Fates(lib, defaultCurrency, s1, rows[1..]) && marks[1..] == Marks(lib, defaultCurrency, s1, rows[1..]);
      assert MarkFits(fates[0], marks[0]);
      hide StepRow, RowDefects, FateOf, OwnBody, MarkFits, Fates, Marks;
      forall i | 0 <= i < |rows| ensures MarkFits(fates[i], marks[i]) {
        if i > 0 {
          assert fates[i] == fates[1..][i - 1] && marks[i] == marks[1..][i - 1];
        }
      }
    }
  }

  /**
   * Every row is exactly one of a line of one draft, a rejected row with one defect of its own, and a
   * header-only repeat: the drafts hold one line for each row of the first kind and nothing else, and the
   * defects are the rows' own, in order.
   */
  lemma EveryRowIsAccountedFor(lib: Library, defaultCurrency: string, rows: seq<SourceRow>)
    ensures var s := Fold(lib, defaultCurrency, START, rows);
            var fates, marks := Fates(lib, defaultCurrency, START, rows), Marks(lib, defaultCurrency, START, rows);
            && Listed(s)
            && TotalLines(s.order, s.drafts) == CountLines(fates)
            && s.defects == Flatten(marks)
            && |fates| == |marks| == |rows|
            && forall i :: 0 <= i < |rows| ==> MarkFits(fates[i], marks[i])
  {
    LinesAreCounted(lib, defaultCurrency, START, rows);
    DefectsAreMarks(lib, defaultCurrency, START, rows);
    MarksFit(lib, defaultCurrency, START, rows);
    hide Fold, Fates, Marks, MarkFits;
  }

  // ---------- Which row is which line ----------

  function LinesAt(s: State, n: string): seq<CanonicalLine> {
    if n in s.drafts then s.drafts[n].body.lines else []
  }

  /** How many of the rows become lines of the invoice. */
  function LineRows(lib: Library, defaultCurrency: string, s: State, rows: seq<SourceRow>, n: string): nat
    decreases rows
  {
    if rows == [] then 0
    else (if BecomesLineOf(defaultCurrency, s, rows[0], n) then 1 else 0)
         + LineRows(lib, defaultCurrency, StepRow(lib, defaultCurrency, s, rows[0]), rows[1..], n)
  }

  predicate BecomesLineOf(defaultCurrency: string, s: State, r: SourceRow, n: string) {
    FateIn(defaultCurrency, s, r).Line? && Cell(r.fields, InvoiceNumber) == Some(n)
  }

  lemma StepLines(lib: Library, defaultCurrency: string, s: State, r: SourceRow, n: string)
    ensures LinesAt(StepRow(lib, defaultCurrency, s, r), n)
         == LinesAt(s, n) + if BecomesLineOf(defaultCurrency, s, r, n)
                            then [LineOf(lib, r.fields, CurrencyOf(r.fields, defaultCurrency), |LinesAt(s, n)|)] else []
  {
    hide RowDefects, LineOf;
  }

  lemma {:induction false} LinesGrow(lib: Library, defaultCurrency: string, s: State, rows: seq<SourceRow>, n: string)
    ensures var lines, lines' := LinesAt(s, n), LinesAt(Fold(lib, defaultCurrency, s, rows), n);
            lines <= lines' && |lines'| == |lines| + LineRows(lib, defaultCurrency, s, rows, n)
    decreases rows
  {
    if rows != [] {
      StepLines(lib, defaultCurrency, s, rows[0], n);
      hide StepRow, BecomesLineOf, LinesAt, LineOf;
      LinesGrow(lib, defaultCurrency, StepRow(lib, defaultCurrency, s, rows[0]), rows[1..], n);
    }
  }

  /** The row becomes the line that stands where the lines of the rows before it end. */
  ghost predicate IsLine(lib: Library, defaultCurrency: string, s: State, rows: seq<SourceRow>, i: nat, n: string, k: nat)
    requires i < |rows|
  {
    var lines := LinesAt(Fold(lib, defaultCurrency, s, rows), n);
    && k == |LinesAt(s, n)| + LineRows(lib, defaultCurrency, s, rows[..i], n)
    && k < |lines| && lines[k] == LineOf(lib, rows[i].fields, CurrencyOf(rows[i].fields, defaultCurrency), k)
  }

  lemma OneRowOn(lib: Library, defaultCurrency: string, s: State, rows: seq<SourceRow>, i: nat, n: string, k: nat)
    requires 0 < i < |rows|
    ensures IsLine(lib, defaultCurrency, s, rows, i, n, k)
            <==> IsLine(lib, defaultCurrency, StepRow(lib, defaultCurrency, s, rows[0]), rows[1..], i - 1, n, k)
  {
    StepLines(lib, defaultCurrency, s, rows[0], n);
    assert rows[..i][0] == rows[0] && rows[..i][1..] == rows[1..][..i - 1];
    hide StepRow, BecomesLineOf, LinesAt, LineOf;
  }

  lemma FoldStep(lib: Library, defaultCurrency: string, s: State, rows: seq<SourceRow>, n: string)
    requires rows != []
    ensures Fold(lib, defaultCurrency, s, rows) == Fold(lib, defaultCurrency, StepRow(lib, defaultCurrency, s, rows[0]), rows[1..])
    ensures LineRows(lib, defaultCurrency, s, rows[..0], n) == 0
  {
  }

  lemma NextAfter<T>(a: seq<T>, x: T, b: seq<T>)
    requires a + [x] <= b
    ensures |a| < |b| && b[|a|] == x
  {
    assert (a + [x])[|a|] == x;
  }

  lemma FirstRow(lib: Library, defaultCurrency: string, s: State, rows: seq<SourceRow>, n: string)
    requires rows != [] && BecomesLineOf(defaultCurrency, s, rows[0], n)
    ensures IsLine(lib, defaultCurrency, s, rows, 0, n, |LinesAt(s, n)|)
  {
    hide StepRow, BecomesLineOf, LinesAt, LineOf, Fold, LineRows;
    var s1 := StepRow(lib, defaultCurrency, s, rows[0]);
    StepLines(lib, defaultCurrency, s, rows[0], n);
    LinesGrow(lib, defaultCurrency, s1, rows[1..], n);
    FoldStep(lib, defaultCurrency, s, rows, n);
    NextAfter(LinesAt(s, n), LineOf(lib, rows[0].fields, CurrencyOf(rows[0].fields, defaultCurrency), |LinesAt(s, n)|),
              LinesAt(Fold(lib, defaultCurrency, s1, rows[1..]), n));
  }

  lemma LineIsNumbered(defaultCurrency: string, s: State, r: SourceRow)
    requires FateIn(defaultCurrency, s, r).Line?
    ensures InvoiceNumber in r.fields && BecomesLineOf(defaultCurrency, s, r, r.fields[InvoiceNumber])
  {
  }

  lemma {:induction false} RowHasALine(lib: Library, defaultCurrency: string, s: State, rows: seq<SourceRow>, i: nat) returns (k: nat)
    requires i < |rows| && Fates(lib, defaultCurrency, s, rows)[i].Line?
    ensures InvoiceNumber in rows[i].fields && IsLine(lib, defaultCurrency, s, rows, i, rows[i].fields[InvoiceNumber], k)
    decreases rows
  {
    hide StepRow, LinesAt, IsLine, FateIn, BecomesLineOf;
    if i == 0 {
      LineIsNumbered(defaultCurrency, s, rows[0]);
      k := |LinesAt(s, rows[0].fields[InvoiceNumber])|;
      FirstRow(lib, defaultCurrency, s, rows, rows[0].fields[InvoiceNumber]);
    } else {
      k := RowHasALine(lib, defaultCurrency, StepRow(lib, defaultCurrency, s, rows[0]), rows[1..], i - 1);
      OneRowOn(lib, defaultCurrency, s, rows, i, rows[i].fields[InvoiceNumber], k);
    }
  }

  lemma {:induction false} LineHasARow(lib: Library, defaultCurrency: string, s: State, rows: seq<SourceRow>, n: string, k: nat)
    returns (i: nat)
    requires |LinesAt(s, n)| <= k < |LinesAt(Fold(lib, defaultCurrency, s, rows), n)|
    ensures i < |rows| && Fates(lib, defaultCurrency, s, rows)[i].Line? && Cell(rows[i].fields, InvoiceNumber) == Some(n)
    ensures IsLine(lib, defaultCurrency, s, rows, i, n, k)
    decreases rows
  {
    var s1 := StepRow(lib, defaultCurrency, s, rows[0]);
    StepLines(lib, defaultCurrency, s, rows[0], n);
    if BecomesLineOf(defaultCurrency, s, rows[0], n) && k == |LinesAt(s, n)| {
      i := 0;
      FirstRow(lib, defaultCurrency, s, rows, n);
      hide IsLine;
    } else {
      hide StepRow, LinesAt, IsLine, FateIn;
      var j := LineHasARow(lib, defaultCurrency, s1, rows[1..], n, k);
      i := j + 1;
      OneRowOn(lib, defaultCurrency, s, rows, i, n, k);
    }
  }

  /** The k-th line of an invoice comes from an accepted row of it that k accepted ones precede. */
  ghost predicate IsOfARow(lib: Library, defaultCurrency: string, rows: seq<SourceRow>, n: string, k: nat) {
    exists i :: 0 <= i < |rows| && Fates(lib, defaultCurrency, START, rows)[i].Line? && Cell(rows[i].fields, InvoiceNumber) == Some(n)
                && LineRows(lib, defaultCurrency, START, rows[..i], n) == k
  }

  /**
   * Rows and lines match one to one: an accepted row is the line of its invoice whose position is the number of
   * earlier accepted rows of that invoice, and says what the row says; and every line of a draft is such a row's.
   */
  lemma RowsAreLines(lib: Library, defaultCurrency: string, rows: seq<SourceRow>)
    ensures var fates, drafts := Fates(lib, defaultCurrency, START, rows), Fold(lib, defaultCurrency, START, rows).drafts;
            && (forall i :: 0 <= i < |rows| && fates[i].Line? ==>
                  && InvoiceNumber in rows[i].fields
                  && var n := rows[i].fields[InvoiceNumber]; var k := LineRows(lib, defaultCurrency, START, rows[..i], n);
                  && n in drafts && k < |drafts[n].body.lines|
                  && drafts[n].body.lines[k] == LineOf(lib, rows[i].fields, CurrencyOf(rows[i].fields, defaultCurrency), k))
            && (forall n, k :: n in drafts && 0 <= k < |drafts[n].body.lines| ==> IsOfARow(lib, defaultCurrency, rows, n, k))
  {
    var fates, drafts := Fates(lib, defaultCurrency, START, rows), Fold(lib, defaultCurrency, START, rows).drafts;
    hide Fates, Fold, LineOf, LineRows;
    forall i | 0 <= i < |rows| && fates[i].Line?
      ensures InvoiceNumber in rows[i].fields
      ensures var n := rows[i].fields[InvoiceNumber];
              IsLine(lib, defaultCurrency, START, rows, i, n, LineRows(lib, defaultCurrency, START, rows[..i], n))
    {
      var k := RowHasALine(lib, defaultCurrency, START, rows, i);
    }
    forall n, k | n in drafts && 0 <= k < |drafts[n].body.lines|
      ensures IsOfARow(lib, defaultCurrency, rows, n, k)
    {
      var i := LineHasARow(lib, defaultCurrency, START, rows, n, k);
    }
  }

  /** Every draft has at least one line. */
  lemma {:induction false} EveryDraftHasALine(lib: Library, defaultCurrency: string, s: State, rows: seq<SourceRow>)
    requires forall n :: n in s.drafts ==> |s.drafts[n].body.lines| > 0
    ensures forall n :: n in Fold(lib, defaultCurrency, s, rows).drafts ==>
              |Fold(lib, defaultCurrency, s, rows).drafts[n].body.lines| > 0
    decreases rows
  {
    if rows != [] {
      StepHasLines(lib, defaultCurrency, s, rows[0]);
      hide StepRow;
      EveryDraftHasALine(lib, defaultCurrency, StepRow(lib, defaultCurrency, s, rows[0]), rows[1..]);
    }
  }

  lemma StepHasLines(lib: Library, defaultCurrency: string, s: State, r: SourceRow)
    requires forall n :: n in s.drafts ==> |s.drafts[n].body.lines| > 0
    ensures var s' := StepRow(lib, defaultCurrency, s, r); forall n :: n in s'.drafts ==> |s'.drafts[n].body.lines| > 0
  {
    hide RowDefects, LineOf;
  }

  // ---------- Rejected rows leave no trace ----------

  /** The rows without those rejected ones that `drop` picks. */
  function WithoutRejected(lib: Library, defaultCurrency: string, s: State, rows: seq<SourceRow>, drop: SourceRow -> bool): seq<SourceRow>
    decreases rows
  {
    if rows == [] then []
    else (if drop(rows[0]) && Rejected(FateIn(defaultCurrency, s, rows[0])) then [] else [rows[0]])
         + WithoutRejected(lib, defaultCurrency, StepRow(lib, defaultCurrency, s, rows[0]), rows[1..], drop)
  }

  predicate SameDrafts(s: State, t: State) {
    s.order == t.order && s.drafts == t.drafts
  }

  lemma SameStep(lib: Library, defaultCurrency: string, s: State, t: State, r: SourceRow)
    requires SameDrafts(s, t)
    ensures SameDrafts(StepRow(lib, defaultCurrency, s, r), StepRow(lib, defaultCurrency, t, r))
    ensures Rejected(FateIn(defaultCurrency, s, r)) ==> SameDrafts(StepRow(lib, defaultCurrency, s, r), t)
  {
    hide RowDefects, StepBody;
  }

  /** Whichever rejected rows are removed, the drafts and their order are the same, and so are the documents. */
  lemma {:induction false} RejectedRowsLeaveNoTrace(lib: Library, defaultCurrency: string, s: State, t: State, rows: seq<SourceRow>,
                                                    drop: SourceRow -> bool)
    requires SameDrafts(s, t)
    ensures SameDrafts(Fold(lib, defaultCurrency, s, rows),
                       Fold(lib, defaultCurrency, t, WithoutRejected(lib, defaultCurrency, s, rows, drop)))
    decreases rows
  {
    if rows != [] {
      var s1 := StepRow(lib, defaultCurrency, s, rows[0]);
      var rest := WithoutRejected(lib, defaultCurrency, s1, rows[1..], drop);
      SameStep(lib, defaultCurrency, s, t, rows[0]);
      if drop(rows[0]) && Rejected(FateIn(defaultCurrency, s, rows[0])) {
        hide StepRow, FateIn, SameDrafts;
        RejectedRowsLeaveNoTrace(lib, defaultCurrency, s1, t, rows[1..], drop);
        assert [] + rest == rest;
      } else {
        hide StepRow, FateIn, SameDrafts;
        RejectedRowsLeaveNoTrace(lib, defaultCurrency, s1, StepRow(lib, defaultCurrency, t, rows[0]), rows[1..], drop);
        assert ([rows[0]] + rest)[1..] == rest;
      }
    }
  }

  lemma {:induction false} FinishIgnoresDefects(lib: Library, order: seq<string>, drafts: map<string, Draft>, e: Extraction, e': Extraction)
    requires (forall n :: n in order ==> n in drafts) && e.documents == e'.documents
    ensures Finish(lib, order, drafts, e).documents == Finish(lib, order, drafts, e').documents
    decreases order
  {
    if order != [] {
      var d := drafts[order[0]];
      var doc := DocumentOf(lib, order[0], d);
      var documents := e.documents + (if doc.Some? then [doc.value] else []);
      hide DocumentOf, DocumentDefects;
      FinishIgnoresDefects(lib, order[1..], drafts, Extraction(documents, e.defects + DocumentDefects(lib, d)),
                           Extraction(documents, e'.defects + DocumentDefects(lib, d)));
    }
  }

  /** The documents of a file are those of the file without any of its rejected rows. */
  lemma DocumentsWithoutRejected(lib: Library, defaultCurrency: string, rows: seq<SourceRow>, drop: SourceRow -> bool)
    ensures var s, t := Fold(lib, defaultCurrency, START, rows),
                        Fold(lib, defaultCurrency, START, WithoutRejected(lib, defaultCurrency, START, rows, drop));
            && Listed(s) && Listed(t)
            && Finish(lib, s.order, s.drafts, Extraction([], s.defects)).documents
               == Finish(lib, t.order, t.drafts, Extraction([], t.defects)).documents
  {
    FoldListed(lib, defaultCurrency, START, rows);
    FoldListed(lib, defaultCurrency, START, WithoutRejected(lib, defaultCurrency, START, rows, drop));
    RejectedRowsLeaveNoTrace(lib, defaultCurrency, START, START, rows, drop);
    var s, t := Fold(lib, defaultCurrency, START, rows),
                Fold(lib, defaultCurrency, START, WithoutRejected(lib, defaultCurrency, START, rows, drop));
    hide Fold, WithoutRejected, Finish;
    FinishIgnoresDefects(lib, s.order, s.drafts, Extraction([], s.defects), Extraction([], t.defects));
  }

  // ---------- What the documents say ----------

  /** What a row holds for a column: its last filled-in cell, trimmed, if there is one. */
  ghost predicate Holds(row: RawRow, m: seq<HeaderColumn>, column: Column, v: Option<string>) {
    match v
    case None => forall j :: 0 <= j < |m| && m[j].column == column ==> !Filled(row, m[j].header)
    case Some(t) => exists i: nat :: LastFilled(row, m, column, i) && t == Trim(row[m[i].header])
  }

  lemma CellHolds(row: RawRow, m: seq<HeaderColumn>, column: Column)
    ensures Holds(row, m, column, Cell(ReadFields(row, m), column))
  {
    LastFilledWins(row, m, column);
    hide ReadFields, Filled, Trim, Cell, LastFilled;
  }

  /** The minor units of the cell, when it is an amount of the currency. */
  ghost predicate AmountHeld(row: RawRow, m: seq<HeaderColumn>, column: Column, currency: string, amount: Option<int>) {
    exists v :: Holds(row, m, column, v) && forall n :: amount == Some(n) <==> v.Some? && ToMinor(v.value, currency) == Ok(n)
  }

  lemma AmountIsHeld(row: RawRow, m: seq<HeaderColumn>, column: Column, currency: string, amount: Option<int>)
    requires var t := TryToMinor(Cell(ReadFields(row, m), column), currency); amount == if t.Minor? then Some(t.minor) else None
    ensures AmountHeld(row, m, column, currency, amount)
  {
    hide *;
    CellHolds(row, m, column);
    var v := Cell(ReadFields(row, m), column);
    TriesExactly(v, currency);
    AmountHeldBy(row, m, column, currency, amount, v);
  }

  lemma AmountHeldBy(row: RawRow, m: seq<HeaderColumn>, column: Column, currency: string, amount: Option<int>, v: Option<string>)
    requires Holds(row, m, column, v) && amount == if TryToMinor(v, currency).Minor? then Some(TryToMinor(v, currency).minor) else None
    requires forall n :: TryToMinor(v, currency) == Minor(n) <==> v.Some? && ToMinor(v.value, currency) == Ok(n)
    ensures AmountHeld(row, m, column, currency, amount)
  {
    hide Holds, TryToMinor, ToMinor;
    forall n ensures amount == Some(n) <==> v.Some? && ToMinor(v.value, currency) == Ok(n) {
      assert amount == Some(n) <==> TryToMinor(v, currency) == Minor(n);
    }
  }

  ghost predicate CurrencyHeld(row: RawRow, m: seq<HeaderColumn>, defaultCurrency: string, currency: string) {
    Holds(row, m, Currency, Some(currency)) || (Holds(row, m, Currency, None) && currency == defaultCurrency)
  }

  /** A name in lower case, where a space or a hyphen stands for an underscore. */
  predicate Spells(lib: Library, t: string, name: string) {
    && |lib.lower(t)| == |name|
    && forall i :: 0 <= i < |name| ==> SpellsChar(lib.lower(t)[i], name[i])
  }

  predicate SpellsChar(c: char, d: char) {
    if IsSpace(c) || c == '-' then d == '_' else d == c
  }

  function TypeName(t: DocType): string {
    match t
    case Invoice => "invoice"
    case CreditNote => "credit_note"
    case DebitNote => "debit_note"
    case SelfBilled => "self_billed"
  }

  function ScenarioName(s: Scenario): string {
    match s
    case Standard => "standard"
    case ZeroRated => "zero_rated"
    case Exempt => "exempt"
    case ReverseCharge => "reverse_charge"
    case DesignatedZone => "designated_zone"
    case Export => "export"
  }

  lemma {:induction false} UnderscoresSpell(s: string, name: string)
    ensures SpacesToUnderscore(s) == name <==> |s| == |name| && forall i :: 0 <= i < |name| ==> SpellsChar(s[i], name[i])
    decreases |s|
  {
    hide IsSpace;
    if s != "" && name != "" {
      UnderscoresSpell(s[1..], name[1..]);
      assert name == [name[0]] + name[1..];
      assert |s| == |name| ==> forall i :: 0 < i < |name| ==> s[i] == s[1..][i - 1] && name[i] == name[1..][i - 1];
      assert |s| == |name| ==> forall i :: 0 <= i < |name[1..]| ==> s[1..][i] == s[i + 1] && name[1..][i] == name[i + 1];
    }
  }

  /** A document type is read exactly from a spelling of its name, and an absent one is an invoice. */
  lemma TypeIsSpelled(lib: Library, raw: Option<string>, t: DocType)
    ensures AsDocType(lib, raw) == Some(t) <==> if raw.None? then t == Invoice else Spells(lib, raw.value, TypeName(t))
  {
    if raw.Some? {
      UnderscoresSpell(lib.lower(raw.value), TypeName(t));
      hide SpacesToUnderscore, IsSpace;
    }
  }

  lemma ScenarioIsSpelled(lib: Library, raw: Option<string>, s: Scenario)
    ensures AsScenario(lib, raw) == Some(s) <==> raw.Some? && Spells(lib, raw.value, ScenarioName(s))
  {
    if raw.Some? {
      UnderscoresSpell(lib.lower(raw.value), ScenarioName(s));
      hide SpacesToUnderscore, IsSpace;
    }
  }

  ghost predicate TypeHeld(lib: Library, row: RawRow, m: seq<HeaderColumn>, t: DocType) {
    exists v :: Holds(row, m, DocTypeColumn, v) && if v.None? then t == Invoice else Spells(lib, v.value, TypeName(t))
  }

  /** The scenario the row states; 'standard' where it states none. */
  ghost predicate ScenarioHeld(lib: Library, row: RawRow, m: seq<HeaderColumn>, s: Scenario) {
    exists v :: Holds(row, m, ScenarioColumn, v)
                && if StatesAScenario(lib, v) then Spells(lib, v.value, ScenarioName(s)) else s == Standard
  }

  ghost predicate StatesAScenario(lib: Library, v: Option<string>) {
    v.Some? && exists s :: Spells(lib, v.value, ScenarioName(s))
  }

  /** The amounts of all lines added up, if every line has one. */
  ghost predicate AddsUp(lines: seq<CanonicalLine>, sum: Option<int>)
    decreases |lines|
  {
    if lines == [] then sum == Some(0)
    else if lines[0].netAmountMinor.None? then sum == None
    else exists rest :: AddsUp(lines[1..], rest) && sum == if rest.None? then None else Some(lines[0].netAmountMinor.value + rest.value)
  }

  lemma {:induction false} LineSumAddsUp(lines: seq<CanonicalLine>)
    ensures AddsUp(lines, LineSum(lines))
    decreases |lines|
  {
    if lines != [] {
      LineSumAddsUp(lines[1..]);
      LineSumFirst(lines);
    }
  }

  lemma {:induction false} LineSumFirst(lines: seq<CanonicalLine>)
    requires lines != []
    ensures var first, rest := lines[0].netAmountMinor, LineSum(lines[1..]);
            LineSum(lines) == if first.None? || rest.None? then None else Some(first.value + rest.value)
    decreases |lines|
  {
    if |lines| > 1 {
      var front := lines[..|lines| - 1];
      assert front[1..] == lines[1..][..|lines[1..]| - 1];
      LineSumFirst(front);
    }
  }

  ghost predicate TwoRates(lines: seq<CanonicalLine>) {
    exists i, j :: 0 <= i < j < |lines| && lines[i].taxRate.Some? && lines[j].taxRate.Some? && lines[i].taxRate != lines[j].taxRate
  }

  lemma ManyRatesExactly(lines: seq<CanonicalLine>)
    ensures |Rates(lines)| > 1 <==> TwoRates(lines)
  {
    var rates := Rates(lines);
    if TwoRates(lines) {
      var i, j :| 0 <= i < j < |lines| && lines[i].taxRate.Some? && lines[j].taxRate.Some? && lines[i].taxRate != lines[j].taxRate;
      assert {lines[i].taxRate.value, lines[j].taxRate.value} <= rates;
      SubsetIsSmaller({lines[i].taxRate.value, lines[j].taxRate.value}, rates);
    } else if rates != {} {
      var r :| r in rates;
      forall q | q in rates ensures q == r {
        var i :| 0 <= i < |lines| && lines[i].taxRate.Some? && lines[i].taxRate.value == r;
        var j :| 0 <= j < |lines| && lines[j].taxRate.Some? && lines[j].taxRate.value == q;
        assert i < j || j < i || i == j;
      }
      assert rates == {r};
    }
  }

  lemma SubsetIsSmaller<T>(a: set<T>, b: set<T>)
    requires a <= b
    ensures |a| <= |b|
  {
    assert b == a + (b - a);
  }

  /** A line says what its row holds. */
  ghost predicate LineAgrees(lib: Library, row: RawRow, m: seq<HeaderColumn>, currency: string, before: nat, l: CanonicalLine) {
    && Holds(row, m, LineDescription, l.description) && Holds(row, m, LineQuantity, l.quantity)
    && Holds(row, m, LineTaxCategory, l.taxCategoryCode) && Holds(row, m, LineTaxRate, l.taxRate)
    && AmountHeld(row, m, LineNetAmount, currency, l.netAmountMinor)
    && (exists v :: Holds(row, m, LineNumber, v) && l.lineNumber == if v.None? then before + 1 else lib.number(v.value))
    && (exists v :: Holds(row, m, LineUnitCode, v) && l.unitCode == if v.Some? && IsUnitCode(v.value) then v else None)
  }

  /** The header says what the row holds, and the lines give the sum, where none is stated, and the rates. */
  ghost predicate HeaderAgrees(lib: Library, row: RawRow, m: seq<HeaderColumn>, defaultCurrency: string, doc: CanonicalDoc) {
    var h := doc.header;
    && Holds(row, m, InvoiceNumber, Some(h.invoiceNumber)) && Holds(row, m, IssueDate, Some(h.issueDate))
    && Holds(row, m, BuyerName, h.buyerName) && Holds(row, m, BuyerTrn, h.buyerTrn)
    && Holds(row, m, SellerTrn, h.sellerTrn) && Holds(row, m, PredecessorRef, h.predecessorRef)
    && CurrencyHeld(row, m, defaultCurrency, h.currency)
    && TypeHeld(lib, row, m, h.docType) && ScenarioHeld(lib, row, m, h.scenario)
    && AmountHeld(row, m, TaxAmount, h.currency, h.taxAmountMinor) && AmountHeld(row, m, Payable, h.currency, h.payableMinor)
    && ExtensionAgrees(row, m, doc)
    && !h.hasAllowanceCharge && (h.hasMultiTaxRate <==> TwoRates(doc.lines))
  }

  ghost predicate ExtensionAgrees(row: RawRow, m: seq<HeaderColumn>, doc: CanonicalDoc) {
    exists stated :: AmountHeld(row, m, LineExtension, doc.header.currency, stated)
                     && if stated.Some? then doc.header.lineExtensionMinor == stated else AddsUp(doc.lines, doc.header.lineExtensionMinor)
  }

  lemma LineOfAgrees(lib: Library, row: RawRow, m: seq<HeaderColumn>, currency: string, before: nat)
    ensures LineAgrees(lib, row, m, currency, before, LineOf(lib, ReadFields(row, m), currency, before))
  {
    CellHolds(row, m, LineDescription);
    CellHolds(row, m, LineQuantity);
    CellHolds(row, m, LineTaxCategory);
    CellHolds(row, m, LineTaxRate);
    CellHolds(row, m, LineNumber);
    CellHolds(row, m, LineUnitCode);
    var f := ReadFields(row, m);
    var l := LineOf(lib, f, currency, before);
    AmountIsHeld(row, m, LineNetAmount, currency, l.netAmountMinor);
    hide ReadFields, Holds, AmountHeld, TryToMinor, IsUnitCode;
    assert LineNumber in f <==> Cell(f, LineNumber).Some?;
    assert LineUnitCode in f <==> Cell(f, LineUnitCode).Some?;
  }

  lemma ScenarioIsHeld(lib: Library, row: RawRow, m: seq<HeaderColumn>, s: Scenario)
    requires var read := AsScenario(lib, Cell(ReadFields(row, m), ScenarioColumn)); s == if read.Some? then read.value else Standard
    ensures ScenarioHeld(lib, row, m, s)
  {
    CellHolds(row, m, ScenarioColumn);
    var v := Cell(ReadFields(row, m), ScenarioColumn);
    hide AsScenario, Spells, Holds, ReadFields, Cell;
    forall t ensures AsScenario(lib, v) == Some(t) <==> v.Some? && Spells(lib, v.value, ScenarioName(t)) {
      ScenarioIsSpelled(lib, v, t);
    }
    hide ScenarioName;
    var read := AsScenario(lib, v);
    assert read.Some? ==> v.Some? && Spells(lib, v.value, ScenarioName(read.value));
    assert StatesAScenario(lib, v) <==> read.Some?;
  }

  lemma TypeIsHeld(lib: Library, row: RawRow, m: seq<HeaderColumn>, t: DocType)
    requires AsDocType(lib, Cell(ReadFields(row, m), DocTypeColumn)) == Some(t)
    ensures TypeHeld(lib, row, m, t)
  {
    CellHolds(row, m, DocTypeColumn);
    TypeIsSpelled(lib, Cell(ReadFields(row, m), DocTypeColumn), t);
    hide AsDocType, Spells, Holds, ReadFields, Cell;
  }

  lemma ExtensionIsHeld(row: RawRow, m: seq<HeaderColumn>, doc: CanonicalDoc)
    requires var stated := AmountOf(ReadFields(row, m), LineExtension, doc.header.currency);
             doc.header.lineExtensionMinor == if stated.Some? then stated else LineSum(doc.lines)
    ensures ExtensionAgrees(row, m, doc)
  {
    AmountIsHeld(row, m, LineExtension, doc.header.currency, AmountOf(ReadFields(row, m), LineExtension, doc.header.currency));
    LineSumAddsUp(doc.lines);
    hide AmountHeld, AddsUp, LineSum, TryToMinor, ReadFields, Cell;
  }

  lemma HeaderOfAgrees(lib: Library, row: RawRow, m: seq<HeaderColumn>, defaultCurrency: string, n: string, d: Draft)
    requires d.body.header == ReadFields(row, m) && Parses(d.body.header) && d.body.header[InvoiceNumber] == n
    requires d.body.currency == CurrencyOf(d.body.header, defaultCurrency) && DocumentOf(lib, n, d).Some?
    ensures HeaderAgrees(lib, row, m, defaultCurrency, DocumentOf(lib, n, d).value)
  {
    var doc, f := DocumentOf(lib, n, d).value, d.body.header;
    CellHolds(row, m, InvoiceNumber);
    CellHolds(row, m, IssueDate);
    CellHolds(row, m, BuyerName);
    CellHolds(row, m, BuyerTrn);
    CellHolds(row, m, SellerTrn);
    CellHolds(row, m, PredecessorRef);
    CellHolds(row, m, Currency);
    ManyRatesExactly(d.body.lines);
    hide Holds, ReadFields, AsDocType, AsScenario, TryToMinor, LineSum, Rates, TwoRates, IsIsoDate;
    AmountIsHeld(row, m, TaxAmount, d.body.currency, AmountOf(f, TaxAmount, d.body.currency));
    AmountIsHeld(row, m, Payable, d.body.currency, AmountOf(f, Payable, d.body.currency));
    hide AmountOf;
    TypeIsHeld(lib, row, m, doc.header.docType);
    ScenarioIsHeld(lib, row, m, doc.header.scenario);
    ExtensionIsHeld(row, m, doc);
    hide AmountHeld, TypeHeld, ScenarioHeld, ExtensionAgrees;
  }

  // The row a draft was made from.

  ghost predicate MadeFrom(s: State, n: string, f: Fields, currency: string, ref: string) {
    n in s.drafts && s.drafts[n].body.header == f && s.drafts[n].body.currency == currency && s.drafts[n].sourceRef == ref
  }

  lemma StepKeepsDraft(lib: Library, defaultCurrency: string, s: State, r: SourceRow, n: string)
    requires n in s.drafts
    ensures MadeFrom(StepRow(lib, defaultCurrency, s, r), n, s.drafts[n].body.header, s.drafts[n].body.currency, s.drafts[n].sourceRef)
  {
    hide RowDefects, LineOf;
  }

  lemma {:induction false} FoldKeepsDraft(lib: Library, defaultCurrency: string, s: State, rows: seq<SourceRow>, n: string)
    requires n in s.drafts
    ensures MadeFrom(Fold(lib, defaultCurrency, s, rows), n, s.drafts[n].body.header, s.drafts[n].body.currency, s.drafts[n].sourceRef)
    decreases rows
  {
    if rows != [] {
      StepKeepsDraft(lib, defaultCurrency, s, rows[0], n);
      hide StepRow;
      FoldKeepsDraft(lib, defaultCurrency, StepRow(lib, defaultCurrency, s, rows[0]), rows[1..], n);
    }
  }

  lemma StepMakesDraft(lib: Library, defaultCurrency: string, s: State, r: SourceRow, n: string)
    ensures var s' := StepRow(lib, defaultCurrency, s, r);
            && (BecomesLineOf(defaultCurrency, s, r, n) ==>
                  && n in s'.drafts && s'.drafts[n].body.currency == CurrencyOf(r.fields, defaultCurrency)
                  && Parses(r.fields) && r.fields[InvoiceNumber] == n
                  && (n !in s.drafts ==> MadeFrom(s', n, r.fields, CurrencyOf(r.fields, defaultCurrency), r.ref)))
            && (!BecomesLineOf(defaultCurrency, s, r, n) ==> (n in s'.drafts <==> n in s.drafts))
  {
    hide RowDefects, LineOf, IsIsoDate, HasLineData, CurrencyOf;
  }

  /** A draft has the cells, the currency and the reference of the first of its rows, and every row of it that currency. */
  lemma {:induction false} FirstRowMakesDraft(lib: Library, defaultCurrency: string, s: State, rows: seq<SourceRow>, i: nat, n: string)
    requires i < |rows| && Fates(lib, defaultCurrency, s, rows)[i].Line? && Cell(rows[i].fields, InvoiceNumber) == Some(n)
    ensures var s' := Fold(lib, defaultCurrency, s, rows); var f := rows[i].fields;
            && n in s'.drafts && s'.drafts[n].body.currency == CurrencyOf(f, defaultCurrency)
            && Parses(f) && f[InvoiceNumber] == n
            && (n !in s.drafts && LineRows(lib, defaultCurrency, s, rows[..i], n) == 0 ==>
                  MadeFrom(s', n, f, CurrencyOf(f, defaultCurrency), rows[i].ref))
    decreases rows
  {
    var s1 := StepRow(lib, defaultCurrency, s, rows[0]);
    StepMakesDraft(lib, defaultCurrency, s, rows[0], n);
    if i == 0 {
      hide StepRow, CurrencyOf, FateOf, Parses;
      FoldKeepsDraft(lib, defaultCurrency, s1, rows[1..], n);
    } else {
      assert rows[..i][0] == rows[0] && rows[..i][1..] == rows[1..][..i - 1];
      hide StepRow, BecomesLineOf, CurrencyOf, FateIn, Cell;
      FirstRowMakesDraft(lib, defaultCurrency, s1, rows[1..], i - 1, n);
    }
  }

  /** Every document is a draft's. */
  lemma {:induction false} DocumentIsADrafts(lib: Library, order: seq<string>, drafts: map<string, Draft>, e: Extraction, i: nat)
    returns (n: string)
    requires forall n :: n in order ==> n in drafts
    requires |e.documents| <= i < |Finish(lib, order, drafts, e).documents|
    ensures n in drafts && DocumentOf(lib, n, drafts[n]) == Some(Finish(lib, order, drafts, e).documents[i])
    decreases order
  {
    var doc := DocumentOf(lib, order[0], drafts[order[0]]);
    var e' := Extraction(e.documents + (if doc.Some? then [doc.value] else []), e.defects + DocumentDefects(lib, drafts[order[0]]));
    hide DocumentOf, DocumentDefects;
    if i < |e'.documents| {
      FinishKeeps(lib, order[1..], drafts, e');
      n := order[0];
    } else {
      n := DocumentIsADrafts(lib, order[1..], drafts, e', i);
    }
  }

  lemma {:induction false} FinishKeeps(lib: Library, order: seq<string>, drafts: map<string, Draft>, e: Extraction)
    requires forall n :: n in order ==> n in drafts
    ensures e.documents <= Finish(lib, order, drafts, e).documents
    decreases order
  {
    if order != [] {
      var doc := DocumentOf(lib, order[0], drafts[order[0]]);
      var e' := Extraction(e.documents + (if doc.Some? then [doc.value] else []), e.defects + DocumentDefects(lib, drafts[order[0]]));
      hide DocumentOf, DocumentDefects;
      FinishKeeps(lib, order[1..], drafts, e');
      var last := Finish(lib, order[1..], drafts, e').documents;
      assert e.documents <= e'.documents <= last;
      Prefixes(e.documents, e'.documents, last);
    }
  }

  lemma Prefixes<T>(a: seq<T>, b: seq<T>, c: seq<T>)
    requires a <= b <= c
    ensures a <= c
  {
  }

  /** The k-th line of a document and the row it says: an accepted row of the invoice that k accepted ones precede. */
  ghost predicate SaysWhatARowSays(lib: Library, raw: seq<RawRow>, m: seq<HeaderColumn>, defaultCurrency: string, doc: CanonicalDoc, k: nat, i: nat)
    requires k < |doc.lines| && i < |raw|
  {
    var rows := Sources(raw, m);
    && Fates(lib, defaultCurrency, START, rows)[i].Line?
    && Holds(raw[i], m, InvoiceNumber, Some(doc.header.invoiceNumber))
    && LineRows(lib, defaultCurrency, START, rows[..i], doc.header.invoiceNumber) == k
    && LineAgrees(lib, raw[i], m, doc.header.currency, k, doc.lines[k])
    && (k == 0 ==> HeaderAgrees(lib, raw[i], m, defaultCurrency, doc) && doc.sourceRef == RowRef(i))
  }

  /**
   * Whatever the file, each line of each document says, field by field, what its row holds, and the header and the
   * reference are those of the first row.
   */
  lemma DocumentsSayWhatTheirRowsSay(lib: Library, raw: seq<RawRow>, headers: seq<string>, defaultCurrency: string, d: nat, k: nat)
    returns (i: nat)
    requires d < |Extract(lib, raw, headers, defaultCurrency).documents|
    requires k < |Extract(lib, raw, headers, defaultCurrency).documents[d].lines|
    ensures i < |raw|
    ensures SaysWhatARowSays(lib, raw, HeaderMap(lib, headers), defaultCurrency, Extract(lib, raw, headers, defaultCurrency).documents[d], k, i)
  {
    var m := HeaderMap(lib, headers);
    var rows := Sources(raw, m);
    var s := Fold(lib, defaultCurrency, START, rows);
    FoldListed(lib, defaultCurrency, START, rows);
    hide Fold, Finish, HeaderMap, DocumentOf, ReadFields, Fates, LineRows, HeaderAgrees, LineAgrees, LineOf, CurrencyOf, Cell, Holds, MadeFrom, RowRef, Parses;
    var n := DocumentIsADrafts(lib, s.order, s.drafts, Extraction([], s.defects), d);
    var doc := Extract(lib, raw, headers, defaultCurrency).documents[d];
    DocumentParts(lib, n, s.drafts[n]);
    i := LineHasARow(lib, defaultCurrency, START, rows, n, k);
    FirstRowMakesDraft(lib, defaultCurrency, START, rows, i, n);
    CellHolds(raw[i], m, InvoiceNumber);
    LineOfAgrees(lib, raw[i], m, doc.header.currency, k);
    if k == 0 {
      MadeFromParts(s, n, rows[i].fields, CurrencyOf(rows[i].fields, defaultCurrency), rows[i].ref);
      HeaderOfAgrees(lib, raw[i], m, defaultCurrency, n, s.drafts[n]);
    }
  }

  lemma MadeFromParts(s: State, n: string, f: Fields, currency: string, ref: string)
    requires MadeFrom(s, n, f, currency, ref)
    ensures n in s.drafts && s.drafts[n].body.header == f && s.drafts[n].body.currency == currency && s.drafts[n].sourceRef == ref
  {
  }

  lemma DocumentParts(lib: Library, n: string, d: Draft)
    requires DocumentOf(lib, n, d).Some?
    ensures var doc := DocumentOf(lib, n, d).value;
            && doc.lines == d.body.lines && doc.sourceRef == d.sourceRef && doc.header.invoiceNumber == n && doc.header.currency == d.body.currency
  {
    hide AmountOf, LineSum, AsDocType, AsScenario;
  }

  // ---------- What the drafts are marked with ----------

  predicate NamesAType(lib: Library, v: Option<string>) {
    v.None? || Spells(lib, v.value, "invoice") || Spells(lib, v.value, "credit_note")
    || Spells(lib, v.value, "debit_note") || Spells(lib, v.value, "self_billed")
  }

  lemma TypeReadExactly(lib: Library, v: Option<string>)
    ensures AsDocType(lib, v).Some? <==> NamesAType(lib, v)
  {
    hide Spells, AsDocType;
    forall t ensures AsDocType(lib, v) == Some(t) <==> if v.None? then t == Invoice else Spells(lib, v.value, TypeName(t)) {
      TypeIsSpelled(lib, v, t);
    }
    var read := AsDocType(lib, v);
    assert v.None? ==> AsDocType(lib, v) == Some(Invoice);
    assert v.Some? ==> Spells(lib, v.value, TypeName(Invoice)) || Spells(lib, v.value, TypeName(CreditNote))
                       || Spells(lib, v.value, TypeName(DebitNote)) || Spells(lib, v.value, TypeName(SelfBilled)) || read.None?;
  }

  lemma ScenarioReadExactly(lib: Library, v: Option<string>)
    ensures AsScenario(lib, v).Some? <==> StatesAScenario(lib, v)
  {
    hide Spells, AsScenario, ScenarioName;
    forall t ensures AsScenario(lib, v) == Some(t) <==> v.Some? && Spells(lib, v.value, ScenarioName(t)) {
      ScenarioIsSpelled(lib, v, t);
    }
  }

  ghost predicate Marked(defects: seq<ExtractionDefect>, c: DefectClass) {
    exists i :: 0 <= i < |defects| && defects[i].defectClass == c
  }

  /**
   * A draft becomes a document exactly when its type is one, and is else marked once as unreadable; a document is marked
   * for a scenario that is none, a buyer without a tax number, and lines none of which has a tax category.
   */
  lemma DraftIsMarkedExactly(lib: Library, row: RawRow, m: seq<HeaderColumn>, n: string, d: Draft)
    requires d.body.header == ReadFields(row, m)
    ensures var marks := DocumentDefects(lib, d);
            var f := d.body.header;
            && (DocumentOf(lib, n, d).None? <==> !NamesAType(lib, Cell(f, DocTypeColumn)))
            && (DocumentOf(lib, n, d).None? ==> marks == [ExtractionDefect(ParseError, d.sourceRef, None)])
            && (DocumentOf(lib, n, d).Some? ==>
                  && (Marked(marks, IdentifierInconsistent) <==> Cell(f, ScenarioColumn).Some? && !StatesAScenario(lib, Cell(f, ScenarioColumn)))
                  && (Marked(marks, TrnMissing) <==> Cell(f, BuyerTrn).None?)
                  && (Marked(marks, TaxCategoryUnmapped) <==>
                        d.body.lines != [] && forall i :: 0 <= i < |d.body.lines| ==> d.body.lines[i].taxCategoryCode.None?)
                  && !Marked(marks, ParseError) && |marks| <= 3)
    ensures Holds(row, m, DocTypeColumn, Cell(d.body.header, DocTypeColumn)) && Holds(row, m, BuyerTrn, Cell(d.body.header, BuyerTrn))
    ensures Holds(row, m, ScenarioColumn, Cell(d.body.header, ScenarioColumn))
    ensures forall i :: 0 <= i < |DocumentDefects(lib, d)| ==> DocumentDefects(lib, d)[i].sourceRef == d.sourceRef
  {
    CellHolds(row, m, DocTypeColumn);
    CellHolds(row, m, BuyerTrn);
    CellHolds(row, m, ScenarioColumn);
    TypeReadExactly(lib, Cell(d.body.header, DocTypeColumn));
    ScenarioReadExactly(lib, Cell(d.body.header, ScenarioColumn));
    hide AsDocType, AsScenario, NamesAType, StatesAScenario, Holds, ReadFields, HeaderOf, TsValueShape;
    MarksOf(lib, d);
    hide DocumentDefects, Marked;
  }

  lemma MarksOf(lib: Library, d: Draft)
    ensures var marks := DocumentDefects(lib, d); var f := d.body.header;
            if AsDocType(lib, Cell(f, DocTypeColumn)).None? then marks == [ExtractionDefect(ParseError, d.sourceRef, None)]
            else
              && (Marked(marks, IdentifierInconsistent) <==> ScenarioColumn in f && AsScenario(lib, Cell(f, ScenarioColumn)).None?)
              && (Marked(marks, TrnMissing) <==> BuyerTrn !in f)
              && (Marked(marks, TaxCategoryUnmapped) <==>
                    |d.body.lines| > 0 && forall i :: 0 <= i < |d.body.lines| ==> d.body.lines[i].taxCategoryCode.None?)
              && !Marked(marks, ParseError) && |marks| <= 3
    ensures forall i :: 0 <= i < |DocumentDefects(lib, d)| ==> DocumentDefects(lib, d)[i].sourceRef == d.sourceRef
  {
    hide AsDocType, AsScenario, TsValueShape;
    if AsDocType(lib, Cell(d.body.header, DocTypeColumn)).Some? {
      var f := d.body.header;
      var scenario := ScenarioColumn in f && AsScenario(lib, Cell(f, ScenarioColumn)).None?;
      var unmapped := |d.body.lines| > 0 && forall i :: 0 <= i < |d.body.lines| ==> d.body.lines[i].taxCategoryCode.None?;
      var a := ExtractionDefect(IdentifierInconsistent, d.sourceRef, Some(TsValueShape(Cell(f, ScenarioColumn), None)));
      var b := ExtractionDefect(TrnMissing, d.sourceRef, Some(TsValueShape(None, None)));
      var c := ExtractionDefect(TaxCategoryUnmapped, d.sourceRef, Some(TsValueShape(None, None)));
      assert DocumentDefects(lib, d) == (if scenario then [a] else []) + (if BuyerTrn !in f then [b] else []) + if unmapped then [c] else [];
      hide DocumentDefects;
      ThreeMarks(scenario, a, BuyerTrn !in f, b, unmapped, c, IdentifierInconsistent);
      ThreeMarks(scenario, a, BuyerTrn !in f, b, unmapped, c, TrnMissing);
      ThreeMarks(scenario, a, BuyerTrn !in f, b, unmapped, c, TaxCategoryUnmapped);
      ThreeMarks(scenario, a, BuyerTrn !in f, b, unmapped, c, ParseError);
      hide Marked;
    }
  }

  lemma OneMark(p: bool, a: ExtractionDefect, k: DefectClass)
    ensures Marked(if p then [a] else [], k) <==> p && a.defectClass == k
  {
    assert p ==> [a][0] == a;
  }

  lemma ThreeMarks(p: bool, a: ExtractionDefect, q: bool, b: ExtractionDefect, r: bool, c: ExtractionDefect, k: DefectClass)
    ensures Marked((if p then [a] else []) + (if q then [b] else []) + (if r then [c] else []), k)
            <==> (p && a.defectClass == k) || (q && b.defectClass == k) || (r && c.defectClass == k)
  {
    hide Marked;
    OneMark(p, a, k);
    OneMark(q, b, k);
    OneMark(r, c, k);
    MarkedConcat(if p then [a] else [], if q then [b] else [], k);
    MarkedConcat((if p then [a] else []) + (if q then [b] else []), if r then [c] else [], k);
  }

  lemma MarkedConcat(a: seq<ExtractionDefect>, b: seq<ExtractionDefect>, c: DefectClass)
    ensures Marked(a + b, c) <==> Marked(a, c) || Marked(b, c)
  {
    if i :| 0 <= i < |a| && a[i].defectClass == c {
      assert (a + b)[i].defectClass == c;
    }
    if i :| 0 <= i < |b| && b[i].defectClass == c {
      assert (a + b)[|a| + i].defectClass == c;
    }
  }

  function DraftMarks(lib: Library, order: seq<string>, drafts: map<string, Draft>): seq<seq<ExtractionDefect>>
    requires forall n :: n in order ==> n in drafts
  {
    if order == [] then [] else [DocumentDefects(lib, drafts[order[0]])] + DraftMarks(lib, order[1..], drafts)
  }

  lemma FlattenCons(mark: seq<ExtractionDefect>, marks: seq<seq<ExtractionDefect>>)
    ensures Flatten([mark] + marks) == mark + Flatten(marks)
  {
    assert ([mark] + marks)[1..] == marks;
  }

  lemma {:induction false} FinishMarks(lib: Library, order: seq<string>, drafts: map<string, Draft>, e: Extraction)
    requires forall n :: n in order ==> n in drafts
    ensures Finish(lib, order, drafts, e).defects == e.defects + Flatten(DraftMarks(lib, order, drafts))
    decreases order
  {
    hide Flatten, DocumentOf, DocumentDefects;
    if order == [] {
      FlattenNone();
    } else {
      var doc := DocumentOf(lib, order[0], drafts[order[0]]);
      var marks := DocumentDefects(lib, drafts[order[0]]);
      var e' := Extraction(e.documents + (if doc.Some? then [doc.value] else []), e.defects + marks);
      FinishMarks(lib, order[1..], drafts, e');
      FlattenCons(marks, DraftMarks(lib, order[1..], drafts));
    }
  }

  lemma FlattenNone()
    ensures Flatten([]) == []
  {
  }

  /** The defects of a file: those of its rows, one after another, then those of its drafts in order of first appearance. */
  lemma DefectsOfAFile(lib: Library, raw: seq<RawRow>, headers: seq<string>, defaultCurrency: string)
    requires HasInvoiceNumber(HeaderMap(lib, headers))
    ensures var rows := Sources(raw, HeaderMap(lib, headers)); var s := Fold(lib, defaultCurrency, START, rows);
            && Listed(s)
            && Extract(lib, raw, headers, defaultCurrency).defects
               == Flatten(Marks(lib, defaultCurrency, START, rows)) + Flatten(DraftMarks(lib, s.order, s.drafts))
  {
    var rows := Sources(raw, HeaderMap(lib, headers));
    var s := Fold(lib, defaultCurrency, START, rows);
    FoldListed(lib, defaultCurrency, START, rows);
    DefectsAreMarks(lib, defaultCurrency, START, rows);
    FinishMarks(lib, s.order, s.drafts, Extraction([], s.defects));
    hide Fold, Finish, Flatten, Marks, HeaderMap;
    assert [] + Flatten(Marks(lib, defaultCurrency, START, rows)) == Flatten(Marks(lib, defaultCurrency, START, rows));
  }

  // ---------- Which rows and headers are read ----------

  /** White space, underscore, hyphen and full stop count for nothing in a header. */
  predicate IsSeparator(c: char) {
    IsSpace(c) || c in "_-."
  }

  lemma {:induction false} SeparatorsCountForNothing(a: string, c: char, b: string)
    ensures WithoutSeparators(a + [c] + b) == if IsSeparator(c) then WithoutSeparators(a + b) else WithoutSeparators(a) + [c] + WithoutSeparators(b)
    decreases |a|
  {
    hide IsSpace;
    if a == "" {
      assert a + [c] + b == [c] + b && ([c] + b)[1..] == b && a + b == b;
    } else {
      assert (a + [c] + b)[1..] == a[1..] + [c] + b && (a + b)[1..] == a[1..] + b;
      assert (a + [c] + b)[0] == a[0] && (a + b)[0] == a[0];
      SeparatorsCountForNothing(a[1..], c, b);
    }
  }

  /** A file without a column for the invoice number gives one defect and nothing else. */
  lemma InvoiceNumberIsNeeded(lib: Library, raw: seq<RawRow>, headers: seq<string>, defaultCurrency: string)
    ensures HasInvoiceNumber(HeaderMap(lib, headers)) <==> exists h :: h in headers && ColumnOf(lib, h) == Some(InvoiceNumber)
    ensures (forall h :: h in headers ==> ColumnOf(lib, h) != Some(InvoiceNumber)) ==>
              Extract(lib, raw, headers, defaultCurrency) == Extraction([], [ExtractionDefect(ParseError, "header", None)])
  {
    var m := HeaderMap(lib, headers);
    HeaderMapIs(lib, headers);
    hide ColumnOf, HeaderMap, Fold, Finish;
    if h :| h in headers && ColumnOf(lib, h) == Some(InvoiceNumber) {
      var i :| 0 <= i < |m| && m[i].header == h;
      assert m[i].column == InvoiceNumber;
    }
  }

  /** Four digits, two and two, with hyphens between them. */
  ghost predicate DateParts(s: string, y: string, m: string, d: string) {
    s == y + "-" + m + "-" + d && |y| == 4 && |m| == 2 && |d| == 2 && AllDigits(y) && AllDigits(m) && AllDigits(d)
  }

  lemma IsoDateExactly(s: string)
    ensures IsIsoDate(s) <==> exists y, m, d :: DateParts(s, y, m, d)
  {
    if IsIsoDate(s) {
      assert s == s[..4] + "-" + s[5..7] + "-" + s[8..];
      assert DateParts(s, s[..4], s[5..7], s[8..]);
    }
    forall y, m, d | DateParts(s, y, m, d) ensures IsIsoDate(s) {
      PartsAreADate(s, y, m, d);
    }
  }

  lemma PartsAreADate(s: string, y: string, m: string, d: string)
    requires DateParts(s, y, m, d)
    ensures IsIsoDate(s)
  {
    assert s[..4] == y && s[5..7] == m && s[8..] == d;
  }

  /** Two or three characters, each a capital letter or a digit. */
  lemma UnitCodeExactly(s: string)
    ensures IsUnitCode(s) <==> (|s| == 2 || |s| == 3) && forall i :: 0 <= i < |s| ==> 'A' <= s[i] <= 'Z' || '0' <= s[i] <= '9'
  {
  }

  /** What a row must hold to be accepted, and to be a line. */
  lemma FateExactly(f: Fields, defaultCurrency: string, b: Option<Body>)
    ensures var fate := FateOf(f, defaultCurrency, b);
            var read := InvoiceNumber in f && IssueDate in f && IsIsoDate(f[IssueDate]);
            var currency := if Currency in f then f[Currency] else defaultCurrency;
            && (fate.Unparsed? <==> !read)
            && (fate.WrongCurrency? <==> read && b.Some? && b.value.currency != currency)
            && (fate.Line? <==> read && (b.None? || b.value.currency == currency)
                                && (LineNetAmount in f || LineDescription in f || LineQuantity in f || b.None? || b.value.lines == []))
  {
    hide IsIsoDate;
  }

  // ---------- What the rows are marked with ----------

  predicate ShapeOf(e: ExtractionDefect, v: string) {
    e.sampleShape == Some(TsValueShape(Some(v), None))
  }

  /**
   * A line is marked exactly for an amount in an unknown currency and for a unit that is no code, each with the shape of
   * the offending value.
   */
  lemma LineIsMarkedExactly(f: Fields, currency: string, ref: string)
    ensures var marks := LineDefects(f, currency, ref);
            && (Marked(marks, CurrencyInconsistent) <==>
                  LineNetAmount in f && !AllSpaces(f[LineNetAmount]) && MinorUnitExponent(currency).Err?)
            && (Marked(marks, UnitCodeFreetext) <==> LineUnitCode in f && !IsUnitCode(f[LineUnitCode]))
            && forall i :: 0 <= i < |marks| ==>
                 && marks[i].sourceRef == ref
                 && ((marks[i].defectClass == CurrencyInconsistent && ShapeOf(marks[i], currency))
                     || (marks[i].defectClass == UnitCodeFreetext && LineUnitCode in f && ShapeOf(marks[i], f[LineUnitCode])))
  {
    TriesExactly(Cell(f, LineNetAmount), currency);
    hide TryToMinor, TsValueShape, IsUnitCode, AllSpaces, MinorUnitExponent;
    var unknown, free := TryToMinor(Cell(f, LineNetAmount), currency) == Failed(UnknownCurrency), LineUnitCode in f && !IsUnitCode(f[LineUnitCode]);
    var a := ExtractionDefect(CurrencyInconsistent, ref, Some(TsValueShape(Some(currency), None)));
    var b := ExtractionDefect(UnitCodeFreetext, ref, Some(TsValueShape(Some(if LineUnitCode in f then f[LineUnitCode] else ""), None)));
    assert LineDefects(f, currency, ref) == (if unknown then [a] else []) + if free then [b] else [];
    OneMark(unknown, a, CurrencyInconsistent);
    OneMark(free, b, CurrencyInconsistent);
    OneMark(unknown, a, UnitCodeFreetext);
    OneMark(free, b, UnitCodeFreetext);
    MarkedConcat(if unknown then [a] else [], if free then [b] else [], CurrencyInconsistent);
    MarkedConcat(if unknown then [a] else [], if free then [b] else [], UnitCodeFreetext);
    hide Marked;
  }

  /** A rejected row is marked once: an unreadable one without a shape, one in another currency with the currency's. */
  lemma RejectedRowIsMarked(defaultCurrency: string, b: Option<Body>, f: Fields, ref: string)
    ensures var marks := RowDefects(defaultCurrency, b, f, ref);
            match FateOf(f, defaultCurrency, b)
            case Unparsed => |marks| == 1 && marks[0].defectClass == ParseError && marks[0].sourceRef == ref && marks[0].sampleShape == None
            case WrongCurrency =>
              && |marks| == 1 && marks[0].defectClass == CurrencyInconsistent && marks[0].sourceRef == ref
              && ShapeOf(marks[0], if Currency in f then f[Currency] else defaultCurrency)
            case Repeat => marks == []
            case Line => marks == LineDefects(f, if Currency in f then f[Currency] else defaultCurrency, ref)
  {
    hide LineDefects, FateOf, TsValueShape;
  }
}
