/**
 * Documents shredded to rows and rebuilt (apps/web/modules/ingestion/normalise.ts, writeDocuments and
 * writeDefects; apps/web/modules/audit/validate.ts, loadCanonical), whatever order the database returns rows in.
 */
module Storage {
  import opened Base
  import opened Canonical
  import opened Shapes

  // ---------- Rows ----------

  datatype InvoiceRow = InvoiceRow(id: string, tenantId: string, runId: string, docHash: string, header: Header, lineCount: nat)

  datatype LineRow = LineRow(tenantId: string, invoiceId: string, line: CanonicalLine)

  datatype Tables = Tables(invoices: seq<InvoiceRow>, lines: seq<LineRow>)

  /**
   * What a column gives back for what was put in, or None when the insert fails: numeric(18, 6) and
   * numeric(6, 3) respell a decimal, the date is stored as an instant.
   */
  datatype Columns = Columns(
    quantity: string -> Option<string>, rate: string -> Option<string>, date: string -> Option<string>, hash: CanonicalDoc -> string)

  function Through(column: string -> Option<string>, value: Option<string>): Option<Option<string>> {
    if value.None? then Some(None)
    else match column(value.value) case None => None case Some(v) => Some(Some(v))
  }

  function StoredLine(c: Columns, line: CanonicalLine): Option<CanonicalLine> {
    var quantity := Through(c.quantity, line.quantity);
    var rate := Through(c.rate, line.taxRate);
    if quantity.None? || rate.None? then None
    else Some(line.(quantity := quantity.value, taxRate := rate.value))
  }

  function StoredLines(c: Columns, lines: seq<CanonicalLine>): Option<seq<CanonicalLine>> {
    if lines == [] then Some([])
    else match StoredLine(c, lines[0])
         case None => None
         case Some(l) => match StoredLines(c, lines[1..])
                         case None => None
                         case Some(ls) => Some([l] + ls)
  }

  /** The document as the columns hold it; None when they refuse it. */
  function StoredDoc(c: Columns, doc: CanonicalDoc, id: string): Option<CanonicalDoc> {
    match c.date(doc.header.issueDate)
    case None => None
    case Some(date) =>
      match StoredLines(c, doc.lines)
      case None => None
      case Some(lines) => Some(CanonicalDoc(doc.header.(issueDate := date), lines, id))
  }

  function LineRows(tenantId: string, id: string, lines: seq<CanonicalLine>): (rows: seq<LineRow>)
    ensures |rows| == |lines| && forall i :: 0 <= i < |rows| ==> rows[i] == LineRow(tenantId, id, lines[i])
  {
    seq(|lines|, i requires 0 <= i < |lines| => LineRow(tenantId, id, lines[i]))
  }

  /** The rows of one document. */
  function Shred(c: Columns, tenantId: string, runId: string, doc: CanonicalDoc, stored: CanonicalDoc): (InvoiceRow, seq<LineRow>) {
    (InvoiceRow(stored.sourceRef, tenantId, runId, c.hash(doc), stored.header, |doc.lines|),
     LineRows(tenantId, stored.sourceRef, stored.lines))
  }

  function Write(t: Tables, c: Columns, tenantId: string, runId: string, docs: seq<CanonicalDoc>, ids: seq<string>): Option<Tables>
    requires |ids| == |docs|
    decreases docs
  {
    if docs == [] then Some(t)
    else match StoredDoc(c, docs[0], ids[0])
         case None => None
         case Some(stored) =>
           var (row, lines) := Shred(c, tenantId, runId, docs[0], stored);
           Write(Tables(t.invoices + [row], t.lines + lines), c, tenantId, runId, docs[1..], ids[1..])
  }

  datatype Loaded = Loaded(invoiceId: string, docHash: string, doc: CanonicalDoc)

  /** `client_data.invoice` and `client_data.invoice_line`, updated in place. */
  class ClientTables {
    var invoices: seq<InvoiceRow>
    var lines: seq<LineRow>

    constructor ()
      ensures invoices == [] && lines == []
    {
      invoices, lines := [], [];
    }

    /**
     * `writeDocuments`. `uuids` are the ids the database draws. A refused row throws, and the transaction
     * around the call takes everything back.
     */
    method WriteDocuments(c: Columns, tenantId: string, runId: string, docs: seq<CanonicalDoc>, uuids: seq<string>)
      returns (ids: Option<seq<string>>)
      requires |uuids| == |docs|
      modifies this
      ensures match Write(Tables(old(invoices), old(lines)), c, tenantId, runId, docs, uuids)
              case None => ids == None && invoices == old(invoices) && lines == old(lines)
              case Some(t) => ids == Some(uuids) && Tables(invoices, lines) == t
    {
      var tx := Tables(invoices, lines);
      var written: seq<string> := [];
      assert docs[0..] == docs && uuids[0..] == uuids;
      for i := 0 to |docs|
        invariant invoices == old(invoices) && lines == old(lines) && written == uuids[..i]
        invariant Write(tx, c, tenantId, runId, docs[i..], uuids[i..])
                  == Write(Tables(old(invoices), old(lines)), c, tenantId, runId, docs, uuids)
      {
        assert docs[i..][0] == docs[i] && docs[i..][1..] == docs[i + 1..];
        assert uuids[i..][0] == uuids[i] && uuids[i..][1..] == uuids[i + 1..];
        var stored := StoredDoc(c, docs[i], uuids[i]);
        if stored.None? {
          return None;
        }
        var (row, rows) := Shred(c, tenantId, runId, docs[i], stored.value);
        tx := Tables(tx.invoices + [row], tx.lines);
        written := written + [row.id];
        if |docs[i].lines| > 0 {
          tx := Tables(tx.invoices, tx.lines + rows);
        } else {
          assert tx.lines + rows == tx.lines;
        }
      }
      assert docs[|docs|..] == [] && uuids[|docs|..] == [] && uuids[..|docs|] == uuids;
      invoices, lines := tx.invoices, tx.lines;
      return Some(written);
    }
  }

  // ---------- What the columns change ----------

  /** The column gave this back for the value; an absent value stays absent. */
  ghost predicate GaveBack(column: string -> Option<string>, value: Option<string>, back: Option<string>) {
    match value
    case None => back == None
    case Some(v) => back.Some? && column(v) == back
  }

  /** Quantity and rate are as their columns give them back; nothing else of the line differs. */
  ghost predicate LineStoredAs(c: Columns, line: CanonicalLine, stored: CanonicalLine) {
    && stored.lineNumber == line.lineNumber && stored.description == line.description && stored.unitCode == line.unitCode
    && stored.netAmountMinor == line.netAmountMinor && stored.taxCategoryCode == line.taxCategoryCode
    && GaveBack(c.quantity, line.quantity, stored.quantity) && GaveBack(c.rate, line.taxRate, stored.taxRate)
  }

  /** Date and reference differ, and the lines as far as their columns say; nothing else. */
  ghost predicate StoredAs(c: Columns, doc: CanonicalDoc, id: string, stored: CanonicalDoc) {
    var h, s := doc.header, stored.header;
    && s.docType == h.docType && s.scenario == h.scenario && s.invoiceNumber == h.invoiceNumber && s.currency == h.currency
    && s.buyerName == h.buyerName && s.buyerTrn == h.buyerTrn && s.sellerTrn == h.sellerTrn && s.predecessorRef == h.predecessorRef
    && s.lineExtensionMinor == h.lineExtensionMinor && s.taxAmountMinor == h.taxAmountMinor && s.payableMinor == h.payableMinor
    && s.hasAllowanceCharge == h.hasAllowanceCharge && s.hasMultiTaxRate == h.hasMultiTaxRate
    && c.date(h.issueDate) == Some(s.issueDate) && stored.sourceRef == id
    && |stored.lines| == |doc.lines|
    && forall i :: 0 <= i < |doc.lines| ==> LineStoredAs(c, doc.lines[i], stored.lines[i])
  }

  ghost predicate LineRefused(c: Columns, line: CanonicalLine) {
    || (line.quantity.Some? && c.quantity(line.quantity.value) == None)
    || (line.taxRate.Some? && c.rate(line.taxRate.value) == None)
  }

  lemma LineStoredExactly(c: Columns, line: CanonicalLine)
    ensures StoredLine(c, line).None? <==> LineRefused(c, line)
    ensures StoredLine(c, line).Some? ==> LineStoredAs(c, line, StoredLine(c, line).value)
  {
  }

  lemma {:induction false} LinesStoredExactly(c: Columns, lines: seq<CanonicalLine>)
    ensures StoredLines(c, lines).None? <==> exists i :: 0 <= i < |lines| && LineRefused(c, lines[i])
    ensures StoredLines(c, lines).Some? ==>
              var stored := StoredLines(c, lines).value;
              |stored| == |lines| && forall i :: 0 <= i < |lines| ==> LineStoredAs(c, lines[i], stored[i])
  {
    if lines != [] {
      LineStoredExactly(c, lines[0]);
      LinesStoredExactly(c, lines[1..]);
      hide StoredLine, LineRefused, LineStoredAs;
      assert forall i :: 0 < i < |lines| ==> lines[i] == lines[1..][i - 1];
      assert forall i :: 0 <= i < |lines[1..]| ==> lines[1..][i] == lines[i + 1];
    }
  }

  /** A document is refused exactly when a column refuses its date, a quantity or a rate, and is else stored as it is. */
  lemma DocumentStoredExactly(c: Columns, doc: CanonicalDoc, id: string)
    ensures StoredDoc(c, doc, id).None?
            <==> c.date(doc.header.issueDate) == None || exists i :: 0 <= i < |doc.lines| && LineRefused(c, doc.lines[i])
    ensures StoredDoc(c, doc, id).Some? ==> StoredAs(c, doc, id, StoredDoc(c, doc, id).value)
  {
    LinesStoredExactly(c, doc.lines);
    hide StoredLines, LineRefused, LineStoredAs;
  }

  // ---------- Rebuilding ----------

  function Bucket(rows: seq<LineRow>, id: string): seq<CanonicalLine> {
    if rows == [] then []
    else (if rows[0].invoiceId == id then [rows[0].line] else []) + Bucket(rows[1..], id)
  }

  function InsertLine(sorted: seq<CanonicalLine>, line: CanonicalLine): seq<CanonicalLine> {
    if sorted == [] || sorted[|sorted| - 1].lineNumber <= line.lineNumber then sorted + [line]
    else InsertLine(sorted[..|sorted| - 1], line) + [sorted[|sorted| - 1]]
  }

  /** The stable sort by line number. */
  function SortLines(lines: seq<CanonicalLine>): seq<CanonicalLine> {
    if lines == [] then [] else InsertLine(SortLines(lines[..|lines| - 1]), lines[|lines| - 1])
  }

  function Rebuild(rows: seq<InvoiceRow>, lineRows: seq<LineRow>): (loaded: seq<Loaded>)
    ensures |loaded| == |rows|
    ensures forall i :: 0 <= i < |rows| ==> loaded[i] == RebuildOne(rows[i], lineRows)
  {
    seq(|rows|, i requires 0 <= i < |rows| => RebuildOne(rows[i], lineRows))
  }

  function RebuildOne(row: InvoiceRow, lineRows: seq<LineRow>): Loaded {
    Loaded(row.id, row.docHash, CanonicalDoc(row.header, SortLines(Bucket(lineRows, row.id)), row.id))
  }

  function Held(buckets: map<string, seq<CanonicalLine>>, id: string): seq<CanonicalLine> {
    if id in buckets then buckets[id] else []
  }

  ghost predicate Buckets(buckets: map<string, seq<CanonicalLine>>, rows: seq<LineRow>) {
    forall id :: Held(buckets, id) == Bucket(rows, id)
  }

  method BucketByInvoice(lineRows: seq<LineRow>) returns (buckets: map<string, seq<CanonicalLine>>)
    ensures Buckets(buckets, lineRows)
  {
    buckets := map[];
    assert lineRows[..0] == [];
    for i := 0 to |lineRows|
      invariant Buckets(buckets, lineRows[..i])
    {
      var row := lineRows[i];
      BucketsStep(buckets, lineRows, i);
      hide Buckets;
      if row.invoiceId in buckets {
        buckets := buckets[row.invoiceId := buckets[row.invoiceId] + [row.line]];
      } else {
        buckets := buckets[row.invoiceId := [row.line]];
      }
    }
    assert lineRows[..|lineRows|] == lineRows;
  }

  lemma BucketsStep(buckets: map<string, seq<CanonicalLine>>, lineRows: seq<LineRow>, i: nat)
    requires i < |lineRows| && Buckets(buckets, lineRows[..i])
    ensures var row := lineRows[i];
            Buckets(buckets[row.invoiceId := if row.invoiceId in buckets then buckets[row.invoiceId] + [row.line] else [row.line]],
                    lineRows[..i + 1])
  {
    var row := lineRows[i];
    var buckets' := buckets[row.invoiceId := if row.invoiceId in buckets then buckets[row.invoiceId] + [row.line] else [row.line]];
    assert [] + [row.line] == [row.line];
    forall id ensures Held(buckets', id) == Bucket(lineRows[..i + 1], id) {
      BucketStep(lineRows, i, id);
      hide Bucket;
      assert Held(buckets, id) == Bucket(lineRows[..i], id);
    }
  }

  lemma BucketStep(lineRows: seq<LineRow>, i: nat, id: string)
    requires i < |lineRows|
    ensures Bucket(lineRows[..i + 1], id)
            == if lineRows[i].invoiceId == id then Bucket(lineRows[..i], id) + [lineRows[i].line] else Bucket(lineRows[..i], id)
  {
    assert lineRows[..i + 1] == lineRows[..i] + [lineRows[i]];
    BucketConcat(lineRows[..i], [lineRows[i]], id);
    assert Bucket([lineRows[i]], id) == if lineRows[i].invoiceId == id then [lineRows[i].line] else [];
  }

  /** `loadCanonical` on the rows the two queries return. */
  method LoadCanonical(rows: seq<InvoiceRow>, lineRows: seq<LineRow>) returns (loaded: seq<Loaded>)
    ensures loaded == Rebuild(rows, lineRows)
  {
    var buckets := BucketByInvoice(lineRows);
    hide Bucket, SortLines;
    loaded := [];
    for i := 0 to |rows|
      invariant |loaded| == i && forall k :: 0 <= k < i ==> loaded[k] == RebuildOne(rows[k], lineRows)
    {
      var bucket := Held(buckets, rows[i].id);
      loaded := loaded + [Loaded(rows[i].id, rows[i].docHash, CanonicalDoc(rows[i].header, SortLines(bucket), rows[i].id))];
    }
  }

  lemma {:induction false} BucketConcat(a: seq<LineRow>, b: seq<LineRow>, id: string)
    ensures Bucket(a + b, id) == Bucket(a, id) + Bucket(b, id)
  {
    if a == [] {
      assert a + b == b;
    } else {
      assert (a + b)[0] == a[0] && (a + b)[1..] == a[1..] + b;
      BucketConcat(a[1..], b, id);
      BucketFirst(a, id);
      BucketFirst(a + b, id);
      hide Bucket;
    }
  }

  lemma BucketFirst(rows: seq<LineRow>, id: string)
    requires rows != []
    ensures Bucket(rows, id) == (if rows[0].invoiceId == id then [rows[0].line] else []) + Bucket(rows[1..], id)
  {
  }

  // ---------- Sorting whatever order the rows came in ----------

  ghost predicate Ordered(lines: seq<CanonicalLine>) {
    forall i, j :: 0 <= i < j < |lines| ==> lines[i].lineNumber <= lines[j].lineNumber
  }

  /** Lines that share a number are the same line. */
  ghost predicate Unambiguous(lines: seq<CanonicalLine>) {
    forall i, j :: 0 <= i < j < |lines| && lines[i].lineNumber == lines[j].lineNumber ==> lines[i] == lines[j]
  }

  lemma {:induction false} InsertMembers(sorted: seq<CanonicalLine>, line: CanonicalLine)
    ensures multiset(InsertLine(sorted, line)) == multiset(sorted) + multiset{line}
  {
    if sorted != [] && line.lineNumber < sorted[|sorted| - 1].lineNumber {
      InsertMembers(sorted[..|sorted| - 1], line);
      assert sorted == sorted[..|sorted| - 1] + [sorted[|sorted| - 1]];
    }
  }

  /** All of the lines are numbered at most n. */
  ghost predicate AtMost(lines: seq<CanonicalLine>, n: int) {
    forall i :: 0 <= i < |lines| ==> lines[i].lineNumber <= n
  }

  lemma {:induction false} InsertAtMost(sorted: seq<CanonicalLine>, line: CanonicalLine, n: int)
    requires AtMost(sorted, n) && line.lineNumber <= n
    ensures AtMost(InsertLine(sorted, line), n)
  {
    if sorted != [] && line.lineNumber < sorted[|sorted| - 1].lineNumber {
      InsertAtMost(sorted[..|sorted| - 1], line, n);
    }
  }

  lemma OrderedEnd(front: seq<CanonicalLine>, last: CanonicalLine)
    requires Ordered(front) && AtMost(front, last.lineNumber)
    ensures Ordered(front + [last])
  {
  }

  lemma OrderedFront(lines: seq<CanonicalLine>)
    requires lines != [] && Ordered(lines)
    ensures Ordered(lines[..|lines| - 1]) && AtMost(lines, lines[|lines| - 1].lineNumber)
    ensures AtMost(lines[..|lines| - 1], lines[|lines| - 1].lineNumber)
  {
  }

  lemma AtMostWeaker(lines: seq<CanonicalLine>, n: int, m: int)
    requires AtMost(lines, n) && n <= m
    ensures AtMost(lines, m)
  {
  }

  lemma OrderedOne(line: CanonicalLine)
    ensures Ordered([line])
  {
  }

  lemma {:induction false} InsertOrdered(sorted: seq<CanonicalLine>, line: CanonicalLine)
    requires Ordered(sorted)
    ensures Ordered(InsertLine(sorted, line))
  {
    hide Ordered, AtMost;
    if sorted == [] {
      OrderedOne(line);
      assert sorted + [line] == [line];
    } else {
      var front, last := sorted[..|sorted| - 1], sorted[|sorted| - 1];
      OrderedFront(sorted);
      if line.lineNumber < last.lineNumber {
        InsertOrdered(front, line);
        InsertAtMost(front, line, last.lineNumber);
        OrderedEnd(InsertLine(front, line), last);
      } else {
        AtMostWeaker(sorted, last.lineNumber, line.lineNumber);
        OrderedEnd(sorted, line);
      }
    }
  }

  lemma {:induction false} SortKeeps(lines: seq<CanonicalLine>)
    ensures Ordered(SortLines(lines)) && multiset(SortLines(lines)) == multiset(lines)
  {
    if lines != [] {
      SortKeeps(lines[..|lines| - 1]);
      InsertOrdered(SortLines(lines[..|lines| - 1]), lines[|lines| - 1]);
      InsertMembers(SortLines(lines[..|lines| - 1]), lines[|lines| - 1]);
      hide Ordered, InsertLine;
      assert lines == lines[..|lines| - 1] + [lines[|lines| - 1]];
    }
  }

  lemma TailMultiset(a: seq<CanonicalLine>)
    requires a != []
    ensures multiset(a[1..]) == multiset(a) - multiset{a[0]}
  {
    assert a == [a[0]] + a[1..];
  }

  lemma TailOrdered(a: seq<CanonicalLine>)
    requires a != [] && Ordered(a)
    ensures Ordered(a[1..]) && (Unambiguous(a) ==> Unambiguous(a[1..]))
  {
  }

  lemma {:induction false} OrderedUnique(a: seq<CanonicalLine>, b: seq<CanonicalLine>)
    requires Ordered(a) && Ordered(b) && Unambiguous(a) && multiset(a) == multiset(b)
    ensures a == b
  {
    hide Ordered, Unambiguous;
    assert |multiset(b)| == |b| && |multiset(a)| == |a|;
    if a != [] {
      HeadsAgree(a, b);
      TailMultiset(a);
      TailMultiset(b);
      TailOrdered(a);
      TailOrdered(b);
      OrderedUnique(a[1..], b[1..]);
      assert a == [a[0]] + a[1..] && b == [b[0]] + b[1..];
    }
  }

  lemma HeadsAgree(a: seq<CanonicalLine>, b: seq<CanonicalLine>)
    requires a != [] && b != [] && Ordered(a) && Ordered(b) && Unambiguous(a) && multiset(a) == multiset(b)
    ensures a[0] == b[0]
  {
    assert b[0] in multiset(b) && a[0] in multiset(a);
    var i :| 0 <= i < |a| && a[i] == b[0];
    var j :| 0 <= j < |b| && b[j] == a[0];
    assert a[0].lineNumber <= a[i].lineNumber && b[0].lineNumber <= b[j].lineNumber;
  }

  // ---------- Where the order is lost ----------

  function Numbered(lines: seq<CanonicalLine>, n: int): seq<CanonicalLine> {
    if lines == [] then []
    else Numbered(lines[..|lines| - 1], n) + if lines[|lines| - 1].lineNumber == n then [lines[|lines| - 1]] else []
  }

  lemma {:induction false} InsertNumbered(sorted: seq<CanonicalLine>, line: CanonicalLine, n: int)
    requires Ordered(sorted)
    ensures Numbered(InsertLine(sorted, line), n) == Numbered(sorted, n) + if line.lineNumber == n then [line] else []
  {
    if sorted == [] || sorted[|sorted| - 1].lineNumber <= line.lineNumber {
      assert (sorted + [line])[..|sorted|] == sorted;
    } else {
      var front, last := sorted[..|sorted| - 1], sorted[|sorted| - 1];
      InsertNumbered(front, line, n);
      var inserted := InsertLine(front, line);
      assert (inserted + [last])[..|inserted|] == inserted;
      if last.lineNumber == n {
        assert line.lineNumber != n;
      }
    }
  }

  /** The sort is stable: lines of one number keep the order they came in. */
  lemma {:induction false} SortIsStable(lines: seq<CanonicalLine>, n: int)
    ensures Numbered(SortLines(lines), n) == Numbered(lines, n)
  {
    if lines != [] {
      SortIsStable(lines[..|lines| - 1], n);
      SortKeeps(lines[..|lines| - 1]);
      InsertNumbered(SortLines(lines[..|lines| - 1]), lines[|lines| - 1], n);
    }
  }

  lemma {:induction false} NumberedConcat(a: seq<CanonicalLine>, b: seq<CanonicalLine>, n: int)
    ensures Numbered(a + b, n) == Numbered(a, n) + Numbered(b, n)
  {
    if b == [] {
      assert a + b == a;
    } else {
      assert (a + b)[..|a + b| - 1] == a + b[..|b| - 1];
      NumberedConcat(a, b[..|b| - 1], n);
    }
  }

  lemma {:induction false} AmbiguousNeighbours(lines: seq<CanonicalLine>) returns (i: nat)
    requires Ordered(lines) && !Unambiguous(lines)
    ensures i + 1 < |lines| && lines[i].lineNumber == lines[i + 1].lineNumber && lines[i] != lines[i + 1]
  {
    var a, b :| 0 <= a < b < |lines| && lines[a].lineNumber == lines[b].lineNumber && lines[a] != lines[b];
    i := a;
    while lines[i] == lines[i + 1]
      invariant a <= i < b && lines[i] == lines[a]
      decreases b - i
    {
      i := i + 1;
    }
  }

  lemma SwappedComesBackWrong(lines: seq<CanonicalLine>, i: nat)
    requires i + 1 < |lines| && lines[i].lineNumber == lines[i + 1].lineNumber && lines[i] != lines[i + 1]
    ensures var swapped := lines[..i] + ([lines[i + 1]] + [lines[i]]) + lines[i + 2..];
            multiset(swapped) == multiset(lines) && SortLines(swapped) != lines
  {
    var x, y, n := lines[i], lines[i + 1], lines[i].lineNumber;
    var front, back := lines[..i], lines[i + 2..];
    var swapped := front + ([y] + [x]) + back;
    assert lines == front + ([x] + [y]) + back;
    NumberedConcat(front, [x] + [y], n);
    NumberedConcat(front + ([x] + [y]), back, n);
    NumberedConcat(front, [y] + [x], n);
    NumberedConcat(front + ([y] + [x]), back, n);
    NumberedPair(x, y, n);
    NumberedPair(y, x, n);
    SortIsStable(swapped, n);
    var f := Numbered(front, n);
    hide SortLines, Numbered;
    assert Numbered(swapped, n)[|f|] == y && Numbered(lines, n)[|f|] == x;
  }

  lemma NumberedPair(x: CanonicalLine, y: CanonicalLine, n: int)
    requires x.lineNumber == n == y.lineNumber
    ensures Numbered([x] + [y], n) == [x, y]
  {
    assert ([x] + [y])[..1] == [x] && [x][..0] == [];
    assert Numbered([x], n) == [x];
  }

  /** Lines come back in their own order from every order of rows, exactly when they are ordered and unambiguous. */
  lemma OrderIsRecoveredExactly(lines: seq<CanonicalLine>)
    ensures (forall rows :: multiset(rows) == multiset(lines) ==> SortLines(rows) == lines)
            <==> Ordered(lines) && Unambiguous(lines)
  {
    if Ordered(lines) && Unambiguous(lines) {
      forall rows | multiset(rows) == multiset(lines) ensures SortLines(rows) == lines {
        SortKeeps(rows);
        OrderedUnique(lines, SortLines(rows));
      }
    } else if !Ordered(lines) {
      SortKeeps(lines);
    } else {
      var i := AmbiguousNeighbours(lines);
      SwappedComesBackWrong(lines, i);
    }
  }

  // ---------- Writing, then loading ----------

  /** The ids are new, and distinct. */
  ghost predicate Fresh(t: Tables, ids: seq<string>) {
    && (forall i, j :: 0 <= i < j < |ids| ==> ids[i] != ids[j])
    && (forall i, r :: 0 <= i < |ids| && 0 <= r < |t.invoices| ==> t.invoices[r].id != ids[i])
    && (forall i, r :: 0 <= i < |ids| && 0 <= r < |t.lines| ==> t.lines[r].invoiceId != ids[i])
  }

  /** What the two queries select; the database may return the rows in any order. */
  function SelectInvoices(rows: seq<InvoiceRow>, tenantId: string, asked: set<string>): seq<InvoiceRow> {
    if rows == [] then []
    else (if rows[0].tenantId == tenantId && rows[0].id in asked then [rows[0]] else []) + SelectInvoices(rows[1..], tenantId, asked)
  }

  function SelectLines(rows: seq<LineRow>, tenantId: string, asked: set<string>): seq<LineRow> {
    if rows == [] then []
    else (if rows[0].tenantId == tenantId && rows[0].invoiceId in asked then [rows[0]] else []) + SelectLines(rows[1..], tenantId, asked)
  }

  lemma {:induction false} SelectInvoicesCount(rows: seq<InvoiceRow>, tenantId: string, asked: set<string>, r: InvoiceRow)
    ensures multiset(SelectInvoices(rows, tenantId, asked))[r]
            == if r.tenantId == tenantId && r.id in asked then multiset(rows)[r] else 0
  {
    if rows != [] {
      SelectInvoicesCount(rows[1..], tenantId, asked, r);
      assert rows == [rows[0]] + rows[1..];
    }
  }

  lemma {:induction false} SelectLinesCount(rows: seq<LineRow>, tenantId: string, asked: set<string>, r: LineRow)
    ensures multiset(SelectLines(rows, tenantId, asked))[r]
            == if r.tenantId == tenantId && r.invoiceId in asked then multiset(rows)[r] else 0
  {
    if rows != [] {
      SelectLinesCount(rows[1..], tenantId, asked, r);
      assert rows == [rows[0]] + rows[1..];
    }
  }

  lemma {:induction false} BucketCount(rows: seq<LineRow>, tenantId: string, id: string, l: CanonicalLine)
    requires forall r :: 0 <= r < |rows| && rows[r].invoiceId == id ==> rows[r].tenantId == tenantId
    ensures multiset(Bucket(rows, id))[l] == multiset(rows)[LineRow(tenantId, id, l)]
  {
    if rows != [] {
      BucketCount(rows[1..], tenantId, id, l);
      assert rows == [rows[0]] + rows[1..];
    }
  }

  lemma {:induction false} BucketOfOthers(rows: seq<LineRow>, id: string)
    requires forall r :: 0 <= r < |rows| ==> rows[r].invoiceId != id
    ensures Bucket(rows, id) == []
  {
    if rows != [] {
      BucketOfOthers(rows[1..], id);
    }
  }

  lemma {:induction false} BucketOfOwn(tenantId: string, id: string, lines: seq<CanonicalLine>)
    ensures Bucket(LineRows(tenantId, id, lines), id) == lines
  {
    if lines != [] {
      var rows := LineRows(tenantId, id, lines);
      BucketOfOwn(tenantId, id, lines[1..]);
      assert rows[1..] == LineRows(tenantId, id, lines[1..]);
      assert lines == [lines[0]] + lines[1..];
    }
  }

  lemma FreshNext(t: Tables, c: Columns, tenantId: string, runId: string, doc: CanonicalDoc, stored: CanonicalDoc, ids: seq<string>)
    requires ids != [] && Fresh(t, ids) && stored.sourceRef == ids[0]
    ensures var (row, lines) := Shred(c, tenantId, runId, doc, stored); Fresh(Tables(t.invoices + [row], t.lines + lines), ids[1..])
  {
  }

  /** The row is there once, and nothing else has its id. */
  ghost predicate HoldsRow(invoices: seq<InvoiceRow>, row: InvoiceRow) {
    multiset(invoices)[row] == 1 && forall r :: 0 <= r < |invoices| && invoices[r].id == row.id ==> invoices[r] == row
  }

  ghost predicate HoldsLines(rows: seq<LineRow>, tenantId: string, id: string, lines: seq<CanonicalLine>) {
    Bucket(rows, id) == lines && forall r :: 0 <= r < |rows| && rows[r].invoiceId == id ==> rows[r].tenantId == tenantId
  }

  /** Everything the tables hold under a fresh id is what was written for it. */
  ghost predicate Holds(t: Tables, c: Columns, tenantId: string, runId: string, doc: CanonicalDoc, id: string) {
    && StoredDoc(c, doc, id).Some?
    && StoredDoc(c, doc, id).value.sourceRef == id
    && HoldsRow(t.invoices, Shred(c, tenantId, runId, doc, StoredDoc(c, doc, id).value).0)
    && HoldsLines(t.lines, tenantId, id, StoredDoc(c, doc, id).value.lines)
  }

  lemma RowStays(invoices: seq<InvoiceRow>, row: InvoiceRow, other: InvoiceRow)
    requires HoldsRow(invoices, row) && other.id != row.id
    ensures HoldsRow(invoices + [other], row)
  {
  }

  lemma LinesStay(rows: seq<LineRow>, tenantId: string, id: string, lines: seq<CanonicalLine>, others: seq<LineRow>)
    requires HoldsLines(rows, tenantId, id, lines) && forall r :: 0 <= r < |others| ==> others[r].invoiceId != id
    ensures HoldsLines(rows + others, tenantId, id, lines)
  {
    BucketConcat(rows, others, id);
    BucketOfOthers(others, id);
    hide Bucket;
  }

  /** Rows written under other ids leave it so. */
  lemma HoldsStays(t: Tables, c: Columns, tenantId: string, runId: string, doc: CanonicalDoc, id: string, row: InvoiceRow, lines: seq<LineRow>)
    requires Holds(t, c, tenantId, runId, doc, id) && row.id != id && forall r :: 0 <= r < |lines| ==> lines[r].invoiceId != id
    ensures Holds(Tables(t.invoices + [row], t.lines + lines), c, tenantId, runId, doc, id)
  {
    hide StoredDoc, HoldsRow, HoldsLines;
    var stored := StoredDoc(c, doc, id).value;
    RowStays(t.invoices, Shred(c, tenantId, runId, doc, stored).0, row);
    LinesStay(t.lines, tenantId, id, stored.lines, lines);
  }

  lemma {:induction false} HoldsThrough(t: Tables, c: Columns, tenantId: string, runId: string, docs: seq<CanonicalDoc>, ids: seq<string>,
                                        doc: CanonicalDoc, id: string)
    requires |ids| == |docs| && Write(t, c, tenantId, runId, docs, ids).Some? && Holds(t, c, tenantId, runId, doc, id) && id !in ids
    ensures Holds(Write(t, c, tenantId, runId, docs, ids).value, c, tenantId, runId, doc, id)
    decreases docs
  {
    if docs != [] {
      var stored := StoredDoc(c, docs[0], ids[0]).value;
      assert stored.sourceRef == ids[0];
      var (row, lines) := Shred(c, tenantId, runId, docs[0], stored);
      HoldsStays(t, c, tenantId, runId, doc, id, row, lines);
      hide Holds, StoredDoc;
      HoldsThrough(Tables(t.invoices + [row], t.lines + lines), c, tenantId, runId, docs[1..], ids[1..], doc, id);
    }
  }

  lemma RowIsNew(invoices: seq<InvoiceRow>, row: InvoiceRow)
    requires forall r :: 0 <= r < |invoices| ==> invoices[r].id != row.id
    ensures HoldsRow(invoices + [row], row)
  {
    assert row !in invoices;
    assert multiset(invoices)[row] == 0;
  }

  lemma LinesAreNew(rows: seq<LineRow>, tenantId: string, id: string, lines: seq<CanonicalLine>)
    requires forall r :: 0 <= r < |rows| ==> rows[r].invoiceId != id
    ensures HoldsLines(rows + LineRows(tenantId, id, lines), tenantId, id, lines)
  {
    BucketConcat(rows, LineRows(tenantId, id, lines), id);
    BucketOfOthers(rows, id);
    BucketOfOwn(tenantId, id, lines);
    hide Bucket;
    assert [] + lines == lines;
  }

  lemma HoldsFirst(t: Tables, c: Columns, tenantId: string, runId: string, doc: CanonicalDoc, id: string)
    requires Fresh(t, [id]) && StoredDoc(c, doc, id).Some?
    ensures var (row, lines) := Shred(c, tenantId, runId, doc, StoredDoc(c, doc, id).value);
            Holds(Tables(t.invoices + [row], t.lines + lines), c, tenantId, runId, doc, id)
  {
    var stored := StoredDoc(c, doc, id).value;
    assert stored.sourceRef == id && [id][0] == id;
    hide StoredDoc, HoldsRow, HoldsLines;
    RowIsNew(t.invoices, Shred(c, tenantId, runId, doc, stored).0);
    LinesAreNew(t.lines, tenantId, id, stored.lines);
  }

  /** After the writes, the tables hold every document under its id. */
  lemma {:induction false} WritesHold(t: Tables, c: Columns, tenantId: string, runId: string, docs: seq<CanonicalDoc>, ids: seq<string>, k: nat)
    requires |ids| == |docs| && k < |docs| && Fresh(t, ids) && Write(t, c, tenantId, runId, docs, ids).Some?
    ensures Holds(Write(t, c, tenantId, runId, docs, ids).value, c, tenantId, runId, docs[k], ids[k])
    decreases docs
  {
    var stored := StoredDoc(c, docs[0], ids[0]).value;
    assert stored.sourceRef == ids[0];
    var (row, lines) := Shred(c, tenantId, runId, docs[0], stored);
    var t1 := Tables(t.invoices + [row], t.lines + lines);
    FreshNext(t, c, tenantId, runId, docs[0], stored, ids);
    if k == 0 {
      assert [ids[0]][0] == ids[0] && Fresh(t, [ids[0]]);
      HoldsFirst(t, c, tenantId, runId, docs[0], ids[0]);
      hide Holds, StoredDoc;
      HoldsThrough(t1, c, tenantId, runId, docs[1..], ids[1..], docs[0], ids[0]);
    } else {
      hide Holds, StoredDoc;
      WritesHold(t1, c, tenantId, runId, docs[1..], ids[1..], k - 1);
    }
  }

  function LoadedFor(loaded: seq<Loaded>, id: string): seq<Loaded> {
    if loaded == [] then [] else (if loaded[0].invoiceId == id then [loaded[0]] else []) + LoadedFor(loaded[1..], id)
  }

  lemma {:induction false} LoadedOnce(rows: seq<InvoiceRow>, lineRows: seq<LineRow>, row: InvoiceRow)
    requires forall r :: 0 <= r < |rows| && rows[r].id == row.id ==> rows[r] == row
    requires multiset(rows)[row] <= 1
    ensures LoadedFor(Rebuild(rows, lineRows), row.id) == if multiset(rows)[row] == 1 then [RebuildOne(row, lineRows)] else []
  {
    if rows != [] {
      assert rows == [rows[0]] + rows[1..];
      assert Rebuild(rows, lineRows)[1..] == Rebuild(rows[1..], lineRows);
      LoadedOnce(rows[1..], lineRows, row);
      hide RebuildOne;
    }
  }

  /** The two queries' rows, in some order. */
  ghost predicate Returned(t: Tables, tenantId: string, asked: set<string>, rows: seq<InvoiceRow>, lineRows: seq<LineRow>) {
    && multiset(rows) == multiset(SelectInvoices(t.invoices, tenantId, asked))
    && multiset(lineRows) == multiset(SelectLines(t.lines, tenantId, asked))
  }

  /** The document is loaded once, and its lines are the rows returned for it, sorted by number. */
  lemma LoadedFromHeld(t: Tables, c: Columns, tenantId: string, runId: string, doc: CanonicalDoc, id: string,
                       asked: set<string>, rows: seq<InvoiceRow>, lineRows: seq<LineRow>)
    requires Holds(t, c, tenantId, runId, doc, id) && id in asked && Returned(t, tenantId, asked, rows, lineRows)
    ensures var stored := StoredDoc(c, doc, id).value;
            && multiset(Bucket(lineRows, id)) == multiset(stored.lines)
            && LoadedFor(Rebuild(rows, lineRows), id)
               == [Loaded(id, c.hash(doc), stored.(lines := SortLines(Bucket(lineRows, id))))]
  {
    var stored := StoredDoc(c, doc, id).value;
    var row := Shred(c, tenantId, runId, doc, stored).0;
    assert stored.sourceRef == id;
    hide StoredDoc, Bucket, SortLines;
    SelectInvoicesCount(t.invoices, tenantId, asked, row);
    SelectedRowsAre(t.invoices, rows, tenantId, asked, row);
    LoadedOnce(rows, lineRows, row);
    LinesComeBack(t.lines, lineRows, tenantId, asked, id);
  }

  function OtherLines(rows: seq<LineRow>, id: string): seq<LineRow> {
    if rows == [] then [] else (if rows[0].invoiceId != id then [rows[0]] else []) + OtherLines(rows[1..], id)
  }

  lemma {:induction false} OtherLinesCount(rows: seq<LineRow>, id: string, r: LineRow)
    ensures multiset(OtherLines(rows, id))[r] == if r.invoiceId != id then multiset(rows)[r] else 0
  {
    if rows != [] {
      OtherLinesCount(rows[1..], id, r);
      assert rows == [rows[0]] + rows[1..];
    }
  }

  lemma LineRowsCount(tenantId: string, id: string, lines: seq<CanonicalLine>, r: LineRow)
    ensures multiset(LineRows(tenantId, id, lines))[r]
            == if r.tenantId == tenantId && r.invoiceId == id then multiset(lines)[r.line] else 0
  {
    var rows := LineRows(tenantId, id, lines);
    if r.tenantId == tenantId && r.invoiceId == id {
      BucketCount(rows, tenantId, id, r.line);
      BucketOfOwn(tenantId, id, lines);
    } else {
      assert r !in rows;
    }
    hide Bucket;
  }

  /** Some order of one document's lines, and the other selected rows as they were. */
  function Rearranged(selected: seq<LineRow>, tenantId: string, id: string, order: seq<CanonicalLine>): seq<LineRow> {
    LineRows(tenantId, id, order) + OtherLines(selected, id)
  }

  lemma RearrangedCount(all: seq<LineRow>, tenantId: string, asked: set<string>, id: string, order: seq<CanonicalLine>, r: LineRow)
    requires id in asked && multiset(order) == multiset(Bucket(all, id))
    requires forall k :: 0 <= k < |all| && all[k].invoiceId == id ==> all[k].tenantId == tenantId
    ensures var selected := SelectLines(all, tenantId, asked);
            multiset(Rearranged(selected, tenantId, id, order))[r] == multiset(selected)[r]
  {
    hide Bucket, SelectLines, OtherLines, LineRows;
    LineRowsCount(tenantId, id, order, r);
    OtherLinesCount(SelectLines(all, tenantId, asked), id, r);
    SelectLinesCount(all, tenantId, asked, r);
    BucketCount(all, tenantId, id, r.line);
    if r.invoiceId == id && r.tenantId != tenantId {
      assert r !in all;
    }
  }

  lemma {:induction false} OthersAreOther(rows: seq<LineRow>, id: string)
    ensures forall i :: 0 <= i < |OtherLines(rows, id)| ==> OtherLines(rows, id)[i].invoiceId != id
  {
    if rows != [] {
      OthersAreOther(rows[1..], id);
    }
  }

  lemma RearrangedBucket(selected: seq<LineRow>, tenantId: string, id: string, order: seq<CanonicalLine>)
    ensures Bucket(Rearranged(selected, tenantId, id, order), id) == order
  {
    BucketConcat(LineRows(tenantId, id, order), OtherLines(selected, id), id);
    BucketOfOwn(tenantId, id, order);
    OthersAreOther(selected, id);
    BucketOfOthers(OtherLines(selected, id), id);
    hide Bucket, OtherLines, LineRows;
    assert order + [] == order;
  }

  /** Any order of one document's lines can be the order they are returned in. */
  lemma AnyOrderCanBeReturned(all: seq<LineRow>, tenantId: string, asked: set<string>, id: string, order: seq<CanonicalLine>)
    returns (lineRows: seq<LineRow>)
    requires id in asked && multiset(order) == multiset(Bucket(all, id))
    requires forall r :: 0 <= r < |all| && all[r].invoiceId == id ==> all[r].tenantId == tenantId
    ensures multiset(lineRows) == multiset(SelectLines(all, tenantId, asked)) && Bucket(lineRows, id) == order
  {
    hide Bucket, SelectLines, Rearranged;
    var selected := SelectLines(all, tenantId, asked);
    lineRows := Rearranged(selected, tenantId, id, order);
    RearrangedBucket(selected, tenantId, id, order);
    forall r ensures multiset(lineRows)[r] == multiset(selected)[r] {
      RearrangedCount(all, tenantId, asked, id, order, r);
    }
  }

  /** The document comes back as stored, whatever order the rows are returned in. */
  ghost predicate ComesBack(t: Tables, c: Columns, tenantId: string, doc: CanonicalDoc, stored: CanonicalDoc, id: string, asked: set<string>) {
    forall rows, lineRows :: Returned(t, tenantId, asked, rows, lineRows) ==>
      LoadedFor(Rebuild(rows, lineRows), id) == [Loaded(id, c.hash(doc), stored)]
  }

  lemma LostOrderShows(t: Tables, c: Columns, tenantId: string, runId: string, doc: CanonicalDoc, id: string, asked: set<string>)
    requires Holds(t, c, tenantId, runId, doc, id) && id in asked
    requires var lines := StoredDoc(c, doc, id).value.lines; !(Ordered(lines) && Unambiguous(lines))
    ensures !ComesBack(t, c, tenantId, doc, StoredDoc(c, doc, id).value, id, asked)
  {
    var stored := StoredDoc(c, doc, id).value;
    OrderIsRecoveredExactly(stored.lines);
    var order :| multiset(order) == multiset(stored.lines) && SortLines(order) != stored.lines;
    var lineRows := AnyOrderCanBeReturned(t.lines, tenantId, asked, id, order);
    var rows := SelectInvoices(t.invoices, tenantId, asked);
    assert Returned(t, tenantId, asked, rows, lineRows);
    hide StoredDoc, Bucket, SortLines, Holds;
    LoadedFromHeld(t, c, tenantId, runId, doc, id, asked, rows, lineRows);
    assert [Loaded(id, c.hash(doc), stored)][0].doc.lines != [Loaded(id, c.hash(doc), stored.(lines := SortLines(order)))][0].doc.lines;
  }

  /**
   * Shred and rebuild: each written document that is asked for is loaded exactly once, with its own lines
   * in their own order whatever order the rows come back in, exactly when its line numbers say what that
   * order is. The columns' spelling of date, quantity and rate and the new id are all that differs.
   */
  lemma WrittenDocumentsComeBack(t: Tables, c: Columns, tenantId: string, runId: string, docs: seq<CanonicalDoc>, ids: seq<string>,
                                 k: nat, asked: set<string>)
    requires |ids| == |docs| && k < |docs| && Fresh(t, ids) && Write(t, c, tenantId, runId, docs, ids).Some? && ids[k] in asked
    ensures var t', stored := Write(t, c, tenantId, runId, docs, ids).value, StoredDoc(c, docs[k], ids[k]);
            && stored.Some?
            && (ComesBack(t', c, tenantId, docs[k], stored.value, ids[k], asked)
                <==> Ordered(docs[k].lines) && Unambiguous(stored.value.lines))
  {
    var t', id, doc := Write(t, c, tenantId, runId, docs, ids).value, ids[k], docs[k];
    WritesHold(t, c, tenantId, runId, docs, ids, k);
    assert StoredDoc(c, doc, id).Some?;
    var stored := StoredDoc(c, doc, id).value;
    StoredKeepsNumbers(c, doc, id);
    hide Write, Fresh, StoredDoc, Holds;
    if Ordered(stored.lines) && Unambiguous(stored.lines) {
      forall rows, lineRows | Returned(t', tenantId, asked, rows, lineRows)
        ensures LoadedFor(Rebuild(rows, lineRows), id) == [Loaded(id, c.hash(doc), stored)]
      {
        LoadedFromHeld(t', c, tenantId, runId, doc, id, asked, rows, lineRows);
        OrderIsRecoveredExactly(stored.lines);
      }
    } else {
      LostOrderShows(t', c, tenantId, runId, doc, id, asked);
    }
  }

  lemma SelectedRowsAre(all: seq<InvoiceRow>, rows: seq<InvoiceRow>, tenantId: string, asked: set<string>, row: InvoiceRow)
    requires multiset(rows) == multiset(SelectInvoices(all, tenantId, asked))
    requires forall r :: 0 <= r < |all| && all[r].id == row.id ==> all[r] == row
    ensures forall r :: 0 <= r < |rows| && rows[r].id == row.id ==> rows[r] == row
  {
    forall r | 0 <= r < |rows| && rows[r].id == row.id ensures rows[r] == row {
      assert rows[r] in multiset(rows);
      SelectInvoicesCount(all, tenantId, asked, rows[r]);
      assert rows[r] in all;
    }
  }

  lemma LinesComeBack(all: seq<LineRow>, lineRows: seq<LineRow>, tenantId: string, asked: set<string>, id: string)
    requires multiset(lineRows) == multiset(SelectLines(all, tenantId, asked)) && id in asked
    requires forall r :: 0 <= r < |all| && all[r].invoiceId == id ==> all[r].tenantId == tenantId
    ensures multiset(Bucket(lineRows, id)) == multiset(Bucket(all, id))
  {
    forall r | 0 <= r < |lineRows| && lineRows[r].invoiceId == id ensures lineRows[r].tenantId == tenantId {
      assert lineRows[r] in multiset(lineRows);
      SelectLinesCount(all, tenantId, asked, lineRows[r]);
    }
    forall l ensures multiset(Bucket(lineRows, id))[l] == multiset(Bucket(all, id))[l] {
      BucketCount(lineRows, tenantId, id, l);
      BucketCount(all, tenantId, id, l);
      SelectLinesCount(all, tenantId, asked, LineRow(tenantId, id, l));
    }
  }

  lemma {:induction false} StoredLinesKeepNumbers(c: Columns, lines: seq<CanonicalLine>)
    requires StoredLines(c, lines).Some?
    ensures |StoredLines(c, lines).value| == |lines|
    ensures forall i :: 0 <= i < |lines| ==> Some(StoredLines(c, lines).value[i]) == StoredLine(c, lines[i])
    decreases lines
  {
    if lines != [] {
      StoredLinesKeepNumbers(c, lines[1..]);
    }
  }

  lemma StoredKeepsNumbers(c: Columns, doc: CanonicalDoc, id: string)
    requires StoredDoc(c, doc, id).Some?
    ensures StoredDoc(c, doc, id).value.sourceRef == id
    ensures Ordered(StoredDoc(c, doc, id).value.lines) <==> Ordered(doc.lines)
  {
    StoredLinesKeepNumbers(c, doc.lines);
    var stored := StoredDoc(c, doc, id).value.lines;
    forall i | 0 <= i < |stored| ensures stored[i].lineNumber == doc.lines[i].lineNumber {
      assert Some(stored[i]) == StoredLine(c, doc.lines[i]);
    }
  }

  // ---------- Defects ----------

  datatype DefectRow = DefectRow(defectClass: DefectClass, affectedCount: nat, sampleShape: Option<ValueShape>)

  function CountClass(defects: seq<ExtractionDefect>, d: DefectClass): nat {
    if defects == [] then 0
    else CountClass(defects[..|defects| - 1], d) + if defects[|defects| - 1].defectClass == d then 1 else 0
  }

  function FirstOf(defects: seq<ExtractionDefect>, d: DefectClass): (f: Option<ExtractionDefect>)
    ensures f.Some? ==> f.value in defects && f.value.defectClass == d
  {
    if defects == [] then None
    else
      var earlier := FirstOf(defects[..|defects| - 1], d);
      if earlier.Some? then earlier
      else if defects[|defects| - 1].defectClass == d then Some(defects[|defects| - 1]) else None
  }

  ghost predicate Listed(rows: seq<DefectRow>, d: DefectClass) {
    exists i :: 0 <= i < |rows| && rows[i].defectClass == d
  }

  ghost predicate RowCounts(row: DefectRow, defects: seq<ExtractionDefect>) {
    var first := FirstOf(defects, row.defectClass);
    first.Some? && row.affectedCount == CountClass(defects, row.defectClass) && row.sampleShape == first.value.sampleShape
  }

  /** One row per class, with its number of occurrences and its first shape. */
  ghost predicate Aggregates(rows: seq<DefectRow>, defects: seq<ExtractionDefect>) {
    && (forall i, j :: 0 <= i < j < |rows| ==> rows[i].defectClass != rows[j].defectClass)
    && (forall d :: FirstOf(defects, d).Some? <==> Listed(rows, d))
    && (forall i :: 0 <= i < |rows| ==> RowCounts(rows[i], defects))
  }

  function SumCounts(rows: seq<DefectRow>): nat {
    if rows == [] then 0 else SumCounts(rows[..|rows| - 1]) + rows[|rows| - 1].affectedCount
  }

  /** Where the class has its row, or the number of rows. */
  method FindRow(rows: seq<DefectRow>, d: DefectClass) returns (i: nat)
    ensures PlaceOf(rows, d, i)
  {
    i := 0;
    while i < |rows| && rows[i].defectClass != d
      invariant i <= |rows| && forall k :: 0 <= k < i ==> rows[k].defectClass != d
    {
      i := i + 1;
    }
  }

  /** `writeDefects`: the rows it inserts; every defect is counted once. */
  method WriteDefects(defects: seq<ExtractionDefect>) returns (rows: seq<DefectRow>)
    ensures Aggregates(rows, defects) && SumCounts(rows) == |defects|
  {
    rows := [];
    assert defects[..0] == [];
    assert Aggregates(rows, defects[..0]) && SumCounts(rows) == 0;
    hide Aggregates, SumCounts, PlaceOf;
    for n := 0 to |defects|
      invariant Aggregates(rows, defects[..n]) && SumCounts(rows) == n
    {
      var i := FindRow(rows, defects[n].defectClass);
      PlaceBound(rows, defects[n].defectClass, i);
      AggregatesNext(rows, defects, n, i);
      SumNext(rows, defects[n], i);
      rows := if i < |rows| then rows[i := rows[i].(affectedCount := rows[i].affectedCount + 1)]
              else rows + [DefectRow(defects[n].defectClass, 1, defects[n].sampleShape)];
    }
    assert defects[..|defects|] == defects;
  }

  lemma PlaceBound(rows: seq<DefectRow>, d: DefectClass, i: nat)
    requires PlaceOf(rows, d, i)
    ensures i <= |rows|
  {
  }

  lemma SumNext(rows: seq<DefectRow>, defect: ExtractionDefect, i: nat)
    requires i <= |rows|
    ensures SumCounts(NextRows(rows, defect, i)) == SumCounts(rows) + 1
  {
    if i < |rows| {
      SumIncrement(rows, i);
    } else {
      assert (rows + [DefectRow(defect.defectClass, 1, defect.sampleShape)])[..|rows|] == rows;
    }
  }

  lemma AggregateStep(defects: seq<ExtractionDefect>, n: nat, d: DefectClass)
    requires n < |defects|
    ensures CountClass(defects[..n + 1], d) == CountClass(defects[..n], d) + if defects[n].defectClass == d then 1 else 0
    ensures FirstOf(defects[..n + 1], d)
            == if FirstOf(defects[..n], d).Some? then FirstOf(defects[..n], d)
               else if defects[n].defectClass == d then Some(defects[n]) else None
  {
    assert defects[..n + 1][..n] == defects[..n];
  }

  lemma {:induction false} NoneCounted(defects: seq<ExtractionDefect>, d: DefectClass)
    requires FirstOf(defects, d).None?
    ensures CountClass(defects, d) == 0
  {
    if defects != [] {
      NoneCounted(defects[..|defects| - 1], d);
    }
  }

  function NextRows(rows: seq<DefectRow>, defect: ExtractionDefect, i: nat): seq<DefectRow>
    requires i <= |rows|
  {
    if i < |rows| then rows[i := rows[i].(affectedCount := rows[i].affectedCount + 1)]
    else rows + [DefectRow(defect.defectClass, 1, defect.sampleShape)]
  }

  /** The position of the defect's class among the rows, or their number. */
  predicate PlaceOf(rows: seq<DefectRow>, d: DefectClass, i: nat) {
    && i <= |rows| && (forall k :: 0 <= k < i ==> rows[k].defectClass != d) && (i < |rows| ==> rows[i].defectClass == d)
  }

  lemma RowCountsNext(rows: seq<DefectRow>, defects: seq<ExtractionDefect>, n: nat, i: nat, k: nat)
    requires n < |defects| && Aggregates(rows, defects[..n]) && PlaceOf(rows, defects[n].defectClass, i)
    requires k < |NextRows(rows, defects[n], i)|
    ensures RowCounts(NextRows(rows, defects[n], i)[k], defects[..n + 1])
  {
    var row := NextRows(rows, defects[n], i)[k];
    AggregateStep(defects, n, row.defectClass);
    if k < |rows| {
      assert RowCounts(rows[k], defects[..n]);
    } else {
      assert !Listed(rows, row.defectClass);
      NoneCounted(defects[..n], row.defectClass);
    }
    hide CountClass, FirstOf, Listed;
  }

  lemma ListedNext(rows: seq<DefectRow>, defects: seq<ExtractionDefect>, n: nat, i: nat, d: DefectClass)
    requires n < |defects| && Aggregates(rows, defects[..n]) && PlaceOf(rows, defects[n].defectClass, i)
    ensures FirstOf(defects[..n + 1], d).Some? <==> Listed(NextRows(rows, defects[n], i), d)
  {
    AggregateStep(defects, n, d);
    hide CountClass, FirstOf;
    var rows' := NextRows(rows, defects[n], i);
    assert forall k :: 0 <= k < |rows| ==> rows'[k].defectClass == rows[k].defectClass;
    assert rows'[i].defectClass == defects[n].defectClass;
  }

  lemma AggregatesNext(rows: seq<DefectRow>, defects: seq<ExtractionDefect>, n: nat, i: nat)
    requires n < |defects| && Aggregates(rows, defects[..n]) && PlaceOf(rows, defects[n].defectClass, i)
    ensures Aggregates(NextRows(rows, defects[n], i), defects[..n + 1])
  {
    var rows' := NextRows(rows, defects[n], i);
    forall d ensures FirstOf(defects[..n + 1], d).Some? <==> Listed(rows', d) {
      ListedNext(rows, defects, n, i, d);
    }
    hide Listed, FirstOf;
    forall k | 0 <= k < |rows'| ensures RowCounts(rows'[k], defects[..n + 1]) {
      RowCountsNext(rows, defects, n, i, k);
    }
  }

  lemma {:induction false} SumIncrement(rows: seq<DefectRow>, i: nat)
    requires i < |rows|
    ensures SumCounts(rows[i := rows[i].(affectedCount := rows[i].affectedCount + 1)]) == SumCounts(rows) + 1
  {
    var rows' := rows[i := rows[i].(affectedCount := rows[i].affectedCount + 1)];
    if i < |rows| - 1 {
      SumIncrement(rows[..|rows| - 1], i);
      assert rows'[..|rows| - 1] == rows[..|rows| - 1][i := rows'[i]];
    } else {
      assert rows'[..i] == rows[..i];
    }
  }
}
