/**
 * The corpus tables and the transactions that write them (apps/web/modules/corpus/record.ts;
 * packages/db/scripts/seed-rules.ts, applyPlan; packages/db/schema/corpus.ts for keys and references).
 * Rows are inserted or left alone, never updated (packages/db/policies/002_corpus_append_only.sql).
 */
module Corpus {
  import opened Base
  import opened Shapes
  import Recurrence
  import SeedPlan

  // ---------- Tables ----------

  datatype SpecificationRow = SpecificationRow(jurisdiction: string, name: string, version: string, effectiveFrom: int)

  datatype RuleRow = RuleRow(
    specId: string, nativeRuleCode: string, severity: string, businessTerm: Option<string>, xpathContext: Option<string>,
    failureClass: string, assertText: string)

  datatype SourceSystemRow = SourceSystemRow(vendor: string, product: string)

  datatype TenantRow = TenantRow(sectorCode: Option<string>, sizeBand: Option<string>, country: string)

  datatype EntityRow = EntityRow(
    tenantHash: string, jurisdiction: string, sysId: Option<string>, sizeBand: Option<string>, scenarioProfile: string)

  datatype CounterpartyRow = CounterpartyRow(jurisdiction: string)

  datatype DocumentRow = DocumentRow(
    entityHash: string, counterpartyHash: Option<string>, direction: string, docType: string, scenario: string,
    currency: string, lineCountBucket: string, hasAllowanceCharge: bool, hasMultiTaxRate: bool)

  /** `recurrenceText` is the text whose hash the column holds. */
  datatype EventRow = EventRow(
    docHash: string, entityHash: string, direction: string, specId: string, specVersion: string, rulesetHash: string,
    stage: string, outcome: string, ruleId: Option<string>, businessTerm: Option<string>, xpath: Option<string>,
    failureClass: Option<string>, valueShape: Option<ValueShape>, attempt: int, recurrenceText: string)

  datatype Tables = Tables(
    specification: map<string, SpecificationRow>, rule: map<string, RuleRow>, sourceSystem: map<string, SourceSystemRow>,
    tenant: map<string, TenantRow>, entity: map<string, EntityRow>, counterparty: map<string, CounterpartyRow>,
    document: map<string, DocumentRow>, events: seq<EventRow>)

  const EMPTY := Tables(map[], map[], map[], map[], map[], map[], map[], [])

  /** INSERT ... ON CONFLICT DO NOTHING. */
  function Insert<K, V>(rows: map<K, V>, key: K, row: V): map<K, V> {
    if key in rows then rows else rows[key := row]
  }

  // ---------- What a call is given ----------

  datatype FindingInput = FindingInput(
    docHash: string, stage: string, outcome: string, ruleId: Option<string>, businessTerm: Option<string>,
    xpath: Option<string>, failureClass: Option<string>, valueShape: Option<ValueShape>, message: Option<string>,
    attempt: Option<int>)

  datatype DocumentInput = DocumentInput(
    docHash: string, docType: string, scenario: string, currency: string, lineCount: int, hasAllowanceCharge: bool,
    hasMultiTaxRate: bool, counterpartyHash: Option<string>)

  datatype RecordInput = RecordInput(
    tenantHash: string, entityHash: string, jurisdiction: string, country: string, sectorCode: Option<string>,
    sizeBand: Option<string>, scenarioProfile: string, sysId: Option<string>, direction: string, specId: string,
    specName: string, specVersion: string, rulesetHash: string, documents: seq<DocumentInput>, findings: seq<FindingInput>,
    counterpartyHash: Option<string>)

  datatype CatalogueRule = CatalogueRule(
    ruleId: string, nativeRuleCode: string, severity: string, businessTerm: Option<string>, xpathContext: Option<string>,
    failureClass: string, assertText: string)

  datatype SeedInput = SeedInput(
    specId: string, specName: string, jurisdiction: string, version: string, effectiveFrom: int, rules: seq<CatalogueRule>)

  datatype CorpusError = RedactionFailure | UnknownDocument | ForeignKey | SpecCatalogueIncomplete | EmptyInsert

  datatype Counts = Counts(eventsWritten: nat, documentsWritten: nat)

  /** The raw-value patterns and `JSON.stringify` of a shape. */
  datatype Scanner = Scanner(dirty: string -> bool, stringify: ValueShape -> string)

  /** `assertRedacted` lets the finding through: the two texts are searched separately. */
  predicate Redacted(sc: Scanner, f: FindingInput) {
    && (f.valueShape.Some? ==> !sc.dirty(sc.stringify(f.valueShape.value)))
    && !sc.dirty(if f.message.Some? then f.message.value else "")
  }

  function LineCountBucket(n: int): string {
    if n <= 1 then "1" else if n <= 5 then "2-5" else if n <= 20 then "6-20" else if n <= 100 then "21-100" else "100+"
  }

  function DocumentHashes(documents: seq<DocumentInput>): set<string> {
    set i | 0 <= i < |documents| :: documents[i].docHash
  }

  // ---------- One call ----------

  function Counterparty(input: RecordInput, d: DocumentInput): Option<string> {
    if d.counterpartyHash.Some? then d.counterpartyHash else input.counterpartyHash
  }

  function DocumentOf(input: RecordInput, d: DocumentInput): DocumentRow {
    DocumentRow(input.entityHash, Counterparty(input, d), input.direction, d.docType, d.scenario, d.currency,
                LineCountBucket(d.lineCount), d.hasAllowanceCharge, d.hasMultiTaxRate)
  }

  function EventOf(input: RecordInput, f: FindingInput): EventRow {
    EventRow(f.docHash, input.entityHash, input.direction, input.specId, input.specVersion, input.rulesetHash, f.stage,
             f.outcome, f.ruleId, f.businessTerm, f.xpath, f.failureClass, f.valueShape,
             if f.attempt.Some? then f.attempt.value else 1,
             Recurrence.KeyText(input.entityHash, f.ruleId, f.xpath, f.valueShape))
  }

  function EventsOf(input: RecordInput, findings: seq<FindingInput>): (events: seq<EventRow>)
    ensures |events| == |findings| && forall i :: 0 <= i < |events| ==> events[i] == EventOf(input, findings[i])
  {
    seq(|findings|, i requires 0 <= i < |findings| => EventOf(input, findings[i]))
  }

  /** The dimension rows every call inserts first. */
  function Dimensions(t: Tables, input: RecordInput, now: int): Tables {
    t.(specification := Insert(t.specification, input.specId, SpecificationRow(input.jurisdiction, input.specName, input.specVersion, now)),
       sourceSystem := if input.sysId.None? then t.sourceSystem
                       else Insert(t.sourceSystem, input.sysId.value, SourceSystemRow(input.sysId.value, input.sysId.value)),
       tenant := Insert(t.tenant, input.tenantHash, TenantRow(input.sectorCode, input.sizeBand, input.country)),
       entity := Insert(t.entity, input.entityHash, EntityRow(input.tenantHash, input.jurisdiction, input.sysId, input.sizeBand, input.scenarioProfile)),
       counterparty := if input.counterpartyHash.None? then t.counterparty
                       else Insert(t.counterparty, input.counterpartyHash.value, CounterpartyRow(input.jurisdiction)))
  }

  /** A row that is not there yet must refer to an entity and, if it names one, a counterparty that are. */
  predicate DocumentRefs(t: Tables, row: DocumentRow) {
    row.entityHash in t.entity && (row.counterpartyHash.Some? ==> row.counterpartyHash.value in t.counterparty)
  }

  function InsertDocuments(t: Tables, input: RecordInput, documents: seq<DocumentInput>): Result<Tables, CorpusError>
    decreases documents
  {
    if documents == [] then Ok(t)
    else
      var row := DocumentOf(input, documents[0]);
      if documents[0].docHash in t.document then InsertDocuments(t, input, documents[1..])
      else if !DocumentRefs(t, row) then Err(ForeignKey)
      else InsertDocuments(t.(document := t.document[documents[0].docHash := row]), input, documents[1..])
  }

  predicate RuleKnown(t: Tables, f: FindingInput) {
    f.ruleId.Some? ==> f.ruleId.value in t.rule
  }

  predicate EventRefs(t: Tables, e: EventRow) {
    && e.docHash in t.document && e.entityHash in t.entity && e.specId in t.specification
    && (e.ruleId.Some? ==> e.ruleId.value in t.rule)
  }

  function InsertEvents(t: Tables, input: RecordInput, findings: seq<FindingInput>): Result<Tables, CorpusError>
    decreases findings
  {
    if findings == [] then Ok(t)
    else if !EventRefs(t, EventOf(input, findings[0])) then Err(ForeignKey)
    else InsertEvents(t.(events := t.events + [EventOf(input, findings[0])]), input, findings[1..])
  }

  /** `recordCorpus`: the tables after a call that succeeds, or why it throws. */
  function Record(t: Tables, sc: Scanner, input: RecordInput, now: int): Result<Tables, CorpusError> {
    if exists i :: 0 <= i < |input.findings| && !Redacted(sc, input.findings[i]) then Err(RedactionFailure)
    else if exists i :: 0 <= i < |input.findings| && input.findings[i].docHash !in DocumentHashes(input.documents) then Err(UnknownDocument)
    else match InsertDocuments(Dimensions(t, input, now), input, input.documents)
         case Err(e) => Err(e)
         case Ok(t') =>
           if exists i :: 0 <= i < |input.findings| && !RuleKnown(t', input.findings[i]) then Err(SpecCatalogueIncomplete)
           else InsertEvents(t', input, input.findings)
  }

  function CatalogueRow(specId: string, r: CatalogueRule): RuleRow {
    RuleRow(specId, r.nativeRuleCode, r.severity, r.businessTerm, r.xpathContext, r.failureClass, r.assertText)
  }

  function InsertRules(rows: map<string, RuleRow>, specId: string, rules: seq<CatalogueRule>): map<string, RuleRow>
    decreases rules
  {
    if rules == [] then rows
    else InsertRules(Insert(rows, rules[0].ruleId, CatalogueRow(specId, rules[0])), specId, rules[1..])
  }

  /** `seedSpecCatalogue`. Its references hold by construction, so it always succeeds. */
  function Seed(t: Tables, input: SeedInput): Tables {
    t.(specification := Insert(t.specification, input.specId,
                               SpecificationRow(input.jurisdiction, input.specName, input.version, input.effectiveFrom)),
       rule := InsertRules(t.rule, input.specId, input.rules))
  }

  function InsertSpecifications(rows: map<string, SpecificationRow>, specs: seq<SeedPlan.Specification>, from: int)
    : map<string, SpecificationRow>
    decreases specs
  {
    if specs == [] then rows
    else InsertSpecifications(Insert(rows, specs[0].specId, SpecificationRow(specs[0].jurisdiction, specs[0].name, specs[0].version, from)),
                              specs[1..], from)
  }

  function PlannedRow(p: SeedPlan.PlannedRule): RuleRow {
    RuleRow(p.specId, p.rule.nativeRuleCode, p.rule.severity, p.rule.businessTerm, p.rule.xpathContext, p.rule.failureClass, p.rule.assertText)
  }

  function InsertPlanned(t: Tables, rules: seq<SeedPlan.PlannedRule>): Result<Tables, CorpusError>
    decreases rules
  {
    if rules == [] then Ok(t)
    else if rules[0].rule.ruleId in t.rule then InsertPlanned(t, rules[1..])
    else if rules[0].specId !in t.specification then Err(ForeignKey)
    else InsertPlanned(t.(rule := t.rule[rules[0].rule.ruleId := PlannedRow(rules[0])]), rules[1..])
  }

  /** `applyPlan`. An insert of no specifications throws; one of no rules is skipped. */
  function Apply(t: Tables, plan: SeedPlan.Plan, from: int): Result<Tables, CorpusError> {
    if plan.specifications == [] then Err(EmptyInsert)
    else InsertPlanned(t.(specification := InsertSpecifications(t.specification, plan.specifications, from)), plan.rules)
  }

  // ---------- The database, updated in place ----------

  class CorpusDb {
    var tables: Tables

    constructor ()
      ensures tables == EMPTY
    {
      tables := EMPTY;
    }

    /** `recordCorpus`: everything happens on the transaction's own copy until the commit. */
    method RecordCorpus(sc: Scanner, input: RecordInput, now: int) returns (r: Result<Counts, CorpusError>)
      modifies this
      ensures Record(old(tables), sc, input, now).Err? ==> r == Err(Record(old(tables), sc, input, now).error) && tables == old(tables)
      ensures Record(old(tables), sc, input, now).Ok? ==>
                r == Ok(Counts(|input.findings|, |input.documents|)) && tables == Record(old(tables), sc, input, now).value
    {
      hide Dimensions, DocumentOf, EventOf, DocumentRefs, EventRefs, RuleKnown, Redacted, DocumentHashes;
      for i := 0 to |input.findings|
        invariant forall k :: 0 <= k < i ==> Redacted(sc, input.findings[k])
      {
        if !Redacted(sc, input.findings[i]) {
          return Err(RedactionFailure);
        }
      }
      for i := 0 to |input.findings|
        invariant forall k :: 0 <= k < i ==> input.findings[k].docHash in DocumentHashes(input.documents)
      {
        if input.findings[i].docHash !in DocumentHashes(input.documents) {
          return Err(UnknownDocument);
        }
      }
      var tx := Dimensions(tables, input, now);
      ghost var dimensioned := tx;
      assert input.documents[0..] == input.documents;
      for d := 0 to |input.documents|
        invariant tables == old(tables)
        invariant InsertDocuments(tx, input, input.documents[d..]) == InsertDocuments(dimensioned, input, input.documents)
      {
        assert input.documents[d..][0] == input.documents[d] && input.documents[d..][1..] == input.documents[d + 1..];
        if input.documents[d].docHash !in tx.document {
          var row := DocumentOf(input, input.documents[d]);
          if !DocumentRefs(tx, row) {
            return Err(ForeignKey);
          }
          tx := tx.(document := tx.document[input.documents[d].docHash := row]);
        }
      }
      assert input.documents[|input.documents|..] == [];
      ghost var documented := tx;
      for i := 0 to |input.findings|
        invariant forall k :: 0 <= k < i ==> RuleKnown(tx, input.findings[k])
      {
        if !RuleKnown(tx, input.findings[i]) {
          return Err(SpecCatalogueIncomplete);
        }
      }
      assert input.findings[0..] == input.findings;
      for i := 0 to |input.findings|
        invariant tables == old(tables)
        invariant InsertEvents(tx, input, input.findings[i..]) == InsertEvents(documented, input, input.findings)
      {
        assert input.findings[i..][0] == input.findings[i] && input.findings[i..][1..] == input.findings[i + 1..];
        if !EventRefs(tx, EventOf(input, input.findings[i])) {
          return Err(ForeignKey);
        }
        tx := tx.(events := tx.events + [EventOf(input, input.findings[i])]);
      }
      assert input.findings[|input.findings|..] == [];
      tables := tx;
      return Ok(Counts(|input.findings|, |input.documents|));
    }

    method SeedSpecCatalogue(input: SeedInput) returns (n: nat)
      modifies this
      ensures tables == Seed(old(tables), input) && n == |input.rules|
    {
      var rows := tables.rule;
      assert input.rules[0..] == input.rules;
      for i := 0 to |input.rules|
        invariant tables == old(tables)
        invariant InsertRules(rows, input.specId, input.rules[i..]) == InsertRules(tables.rule, input.specId, input.rules)
      {
        assert input.rules[i..][0] == input.rules[i] && input.rules[i..][1..] == input.rules[i + 1..];
        rows := Insert(rows, input.rules[i].ruleId, CatalogueRow(input.specId, input.rules[i]));
      }
      assert input.rules[|input.rules|..] == [];
      tables := tables.(
        specification := Insert(tables.specification, input.specId,
                                SpecificationRow(input.jurisdiction, input.specName, input.version, input.effectiveFrom)),
        rule := rows);
      return |input.rules|;
    }
  }

  // ---------- What every call keeps ----------

  ghost predicate Kept<K, V>(m: map<K, V>, m': map<K, V>) {
    forall k :: k in m ==> k in m' && m'[k] == m[k]
  }

  /** No row changes or disappears; events are appended. */
  ghost predicate Extends(t: Tables, t': Tables) {
    && Kept(t.specification, t'.specification) && Kept(t.rule, t'.rule) && Kept(t.sourceSystem, t'.sourceSystem)
    && Kept(t.tenant, t'.tenant) && Kept(t.entity, t'.entity) && Kept(t.counterparty, t'.counterparty)
    && Kept(t.document, t'.document) && t.events <= t'.events
  }

  ghost predicate EntityRefs(t: Tables, e: EntityRow) {
    e.tenantHash in t.tenant && (e.sysId.Some? ==> e.sysId.value in t.sourceSystem)
  }

  /** Every reference of every row names a row that exists. */
  ghost predicate Integrity(t: Tables) {
    && (forall k :: k in t.rule ==> t.rule[k].specId in t.specification)
    && (forall k :: k in t.entity ==> EntityRefs(t, t.entity[k]))
    && (forall k :: k in t.document ==> DocumentRefs(t, t.document[k]))
    && (forall i :: 0 <= i < |t.events| ==> EventRefs(t, t.events[i]))
  }

  lemma ExtendsTransitive(a: Tables, b: Tables, c: Tables)
    requires Extends(a, b) && Extends(b, c)
    ensures Extends(a, c)
  {
    assert forall i :: 0 <= i < |a.events| ==> a.events[i] == b.events[i] == c.events[i];
  }

  lemma DimensionsIntegrity(t: Tables, input: RecordInput, now: int)
    requires Integrity(t)
    ensures Integrity(Dimensions(t, input, now))
  {
    var t' := Dimensions(t, input, now);
    forall k | k in t'.entity ensures EntityRefs(t', t'.entity[k]) {
      assert k in t.entity ==> EntityRefs(t, t.entity[k]);
    }
    forall i | 0 <= i < |t'.events| ensures EventRefs(t', t'.events[i]) {
      assert EventRefs(t, t.events[i]);
    }
  }

  lemma DimensionsKeep(t: Tables, input: RecordInput, now: int)
    requires Integrity(t)
    ensures var t' := Dimensions(t, input, now);
            && Integrity(t') && Extends(t, t') && t'.document == t.document && t'.rule == t.rule && t'.events == t.events
            && input.entityHash in t'.entity && input.specId in t'.specification
            && forall c :: c in t'.counterparty <==> c in t.counterparty || Some(c) == input.counterpartyHash
  {
    DimensionsIntegrity(t, input, now);
    hide Integrity;
  }

  lemma OneDocumentKeeps(t: Tables, key: string, row: DocumentRow)
    requires Integrity(t) && key !in t.document && DocumentRefs(t, row)
    ensures var t' := t.(document := t.document[key := row]); Integrity(t') && Extends(t, t')
  {
  }

  lemma {:induction false} DocumentsKeep(t: Tables, input: RecordInput, documents: seq<DocumentInput>)
    requires Integrity(t) && InsertDocuments(t, input, documents).Ok?
    ensures var t' := InsertDocuments(t, input, documents).value;
            && Integrity(t') && Extends(t, t') && t' == t.(document := t'.document)
            && forall i :: 0 <= i < |documents| ==> documents[i].docHash in t'.document
    decreases documents
  {
    if documents != [] {
      var d := documents[0];
      if d.docHash in t.document {
        DocumentsKeep(t, input, documents[1..]);
      } else {
        var row := DocumentOf(input, d);
        var t1 := t.(document := t.document[d.docHash := row]);
        OneDocumentKeeps(t, d.docHash, row);
        DocumentsKeep(t1, input, documents[1..]);
        hide Integrity, DocumentRefs, DocumentOf;
        ExtendsTransitive(t, t1, InsertDocuments(t1, input, documents[1..]).value);
      }
    }
  }

  ghost predicate AllEventRefs(t: Tables, input: RecordInput, findings: seq<FindingInput>) {
    forall i :: 0 <= i < |findings| ==> EventRefs(t, EventOf(input, findings[i]))
  }

  lemma EventsOfCons(input: RecordInput, findings: seq<FindingInput>)
    requires findings != []
    ensures EventsOf(input, findings) == [EventOf(input, findings[0])] + EventsOf(input, findings[1..])
  {
    hide EventOf;
  }

  lemma AllEventRefsTail(t: Tables, input: RecordInput, findings: seq<FindingInput>)
    requires findings != [] && AllEventRefs(t, input, findings)
    ensures EventRefs(t, EventOf(input, findings[0]))
    ensures AllEventRefs(t.(events := t.events + [EventOf(input, findings[0])]), input, findings[1..])
  {
    hide EventOf;
    assert EventRefs(t, EventOf(input, findings[0]));
  }

  lemma {:induction false} EventsAppend(t: Tables, input: RecordInput, findings: seq<FindingInput>)
    requires AllEventRefs(t, input, findings)
    ensures InsertEvents(t, input, findings) == Ok(t.(events := t.events + EventsOf(input, findings)))
    decreases findings
  {
    if findings == [] {
      assert t.events + EventsOf(input, findings) == t.events;
    } else {
      AllEventRefsTail(t, input, findings);
      EventsOfCons(input, findings);
      hide EventOf, EventRefs, AllEventRefs, EventsOf;
      var e := EventOf(input, findings[0]);
      EventsAppend(t.(events := t.events + [e]), input, findings[1..]);
      Assoc(t.events, [e], EventsOf(input, findings[1..]));
    }
  }

  lemma Assoc<T>(a: seq<T>, b: seq<T>, c: seq<T>)
    ensures (a + b) + c == a + (b + c)
  {
  }

  lemma EventsKeep(t: Tables, input: RecordInput, findings: seq<FindingInput>)
    requires Integrity(t) && AllEventRefs(t, input, findings)
    ensures var t' := t.(events := t.events + EventsOf(input, findings)); Integrity(t') && Extends(t, t')
  {
    var t' := t.(events := t.events + EventsOf(input, findings));
    forall i | 0 <= i < |t'.events| ensures EventRefs(t', t'.events[i]) {
      if i < |t.events| {
        assert EventRefs(t, t.events[i]);
      } else {
        assert EventRefs(t, EventOf(input, findings[i - |t.events|]));
      }
    }
    hide EventOf, EventRefs;
  }

  /** The row would be inserted, and names a counterparty that nobody has inserted. */
  predicate StrangeCounterparty(t: Tables, input: RecordInput, i: int)
    requires 0 <= i < |input.documents|
  {
    var d := input.documents[i];
    && d.docHash !in t.document && (forall j :: 0 <= j < i ==> input.documents[j].docHash != d.docHash)
    && Counterparty(input, d).Some? && Counterparty(input, d).value !in t.counterparty
    && Counterparty(input, d) != input.counterpartyHash
  }

  /** An earlier document of the call has the same hash. */
  predicate Repeated(documents: seq<DocumentInput>, i: int)
    requires 0 <= i < |documents|
  {
    exists j :: 0 <= j < i && documents[j].docHash == documents[i].docHash
  }

  predicate Fits(t: Tables, input: RecordInput, documents: seq<DocumentInput>, i: int)
    requires 0 <= i < |documents|
  {
    documents[i].docHash in t.document || Repeated(documents, i) || DocumentRefs(t, DocumentOf(input, documents[i]))
  }

  lemma RepeatedTail(documents: seq<DocumentInput>, i: nat)
    requires i + 1 < |documents|
    ensures Repeated(documents, i + 1) <==> documents[0].docHash == documents[i + 1].docHash || Repeated(documents[1..], i)
  {
    if j :| 0 <= j < i + 1 && documents[j].docHash == documents[i + 1].docHash {
      if j > 0 {
        assert documents[1..][j - 1].docHash == documents[1..][i].docHash;
      }
    }
    if Repeated(documents[1..], i) {
      var j :| 0 <= j < i && documents[1..][j].docHash == documents[1..][i].docHash;
      assert documents[j + 1].docHash == documents[i + 1].docHash;
    }
  }

  lemma FitsTail(t: Tables, t1: Tables, input: RecordInput, documents: seq<DocumentInput>)
    requires documents != [] && t1 == t.(document := t1.document) && Fits(t, input, documents, 0)
    requires forall k :: k in t1.document <==> k in t.document || k == documents[0].docHash
    ensures (forall i :: 0 <= i < |documents| ==> Fits(t, input, documents, i))
            <==> (forall i :: 0 <= i < |documents[1..]| ==> Fits(t1, input, documents[1..], i))
  {
    var rest := documents[1..];
    forall i: nat | i < |rest| ensures Fits(t, input, documents, i + 1) <==> Fits(t1, input, rest, i) {
      RepeatedTail(documents, i);
      assert rest[i] == documents[i + 1];
    }
    hide Fits;
    if forall i :: 0 <= i < |documents| ==> Fits(t, input, documents, i) {
      forall i | 0 <= i < |rest| ensures Fits(t1, input, rest, i) {
        assert Fits(t, input, documents, i + 1);
      }
    }
    if forall i :: 0 <= i < |rest| ==> Fits(t1, input, rest, i) {
      forall i | 0 <= i < |documents| ensures Fits(t, input, documents, i) {
        assert i > 0 ==> Fits(t1, input, rest, i - 1);
      }
    }
  }

  lemma {:induction false} DocumentsSucceed(t: Tables, input: RecordInput, documents: seq<DocumentInput>)
    requires input.entityHash in t.entity
    ensures InsertDocuments(t, input, documents).Ok? <==> forall i :: 0 <= i < |documents| ==> Fits(t, input, documents, i)
    decreases documents
  {
    if documents != [] {
      var d, rest := documents[0], documents[1..];
      var row := DocumentOf(input, d);
      assert Fits(t, input, documents, 0) <==> d.docHash in t.document || DocumentRefs(t, row);
      hide DocumentOf, Fits, DocumentRefs;
      if d.docHash in t.document {
        DocumentsSucceed(t, input, rest);
        FitsTail(t, t, input, documents);
      } else if DocumentRefs(t, row) {
        var t1 := t.(document := t.document[d.docHash := row]);
        DocumentsSucceed(t1, input, rest);
        FitsTail(t, t1, input, documents);
      }
    }
  }

  /** What a call must meet to go through. */
  ghost predicate Acceptable(t: Tables, sc: Scanner, input: RecordInput) {
    && (forall i :: 0 <= i < |input.findings| ==> Redacted(sc, input.findings[i]))
    && (forall i :: 0 <= i < |input.findings| ==> exists j :: 0 <= j < |input.documents| && input.documents[j].docHash == input.findings[i].docHash)
    && (forall i :: 0 <= i < |input.findings| ==> RuleKnown(t, input.findings[i]))
    && (forall i :: 0 <= i < |input.documents| ==> !StrangeCounterparty(t, input, i))
  }

  lemma DocumentsSucceedExactly(t: Tables, input: RecordInput, now: int)
    requires Integrity(t)
    ensures InsertDocuments(Dimensions(t, input, now), input, input.documents).Ok?
            <==> forall i :: 0 <= i < |input.documents| ==> !StrangeCounterparty(t, input, i)
  {
    var t' := Dimensions(t, input, now);
    DimensionsKeep(t, input, now);
    hide Dimensions;
    DocumentsSucceed(t', input, input.documents);
    forall i | 0 <= i < |input.documents|
      ensures !StrangeCounterparty(t, input, i) <==> Fits(t', input, input.documents, i)
    {
    }
  }

  lemma ListedHash(input: RecordInput, h: string)
    ensures h in DocumentHashes(input.documents) <==> exists j :: 0 <= j < |input.documents| && input.documents[j].docHash == h
  {
  }

  /** What `Record` returns once its two checks before the transaction pass. */
  lemma CheckedRecord(t: Tables, sc: Scanner, input: RecordInput, now: int)
    requires forall i :: 0 <= i < |input.findings| ==> Redacted(sc, input.findings[i])
    requires forall i :: 0 <= i < |input.findings| ==> input.findings[i].docHash in DocumentHashes(input.documents)
    ensures Record(t, sc, input, now)
            == match InsertDocuments(Dimensions(t, input, now), input, input.documents)
               case Err(e) => Err(e)
               case Ok(t') =>
                 if exists i :: 0 <= i < |input.findings| && !RuleKnown(t', input.findings[i]) then Err(SpecCatalogueIncomplete)
                 else InsertEvents(t', input, input.findings)
  {
    hide Redacted, DocumentHashes, Dimensions, RuleKnown;
  }

  lemma TransactionEffect(t: Tables, sc: Scanner, input: RecordInput, now: int)
    requires Integrity(t)
    requires forall i :: 0 <= i < |input.findings| ==> Redacted(sc, input.findings[i])
    requires forall i :: 0 <= i < |input.findings| ==> input.findings[i].docHash in DocumentHashes(input.documents)
    requires InsertDocuments(Dimensions(t, input, now), input, input.documents).Ok?
    ensures Record(t, sc, input, now).Ok? <==> forall i :: 0 <= i < |input.findings| ==> RuleKnown(t, input.findings[i])
    ensures Record(t, sc, input, now).Ok? ==>
              var t' := Record(t, sc, input, now).value;
              && Integrity(t') && Extends(t, t')
              && t'.events == t.events + EventsOf(input, input.findings)
              && forall i :: 0 <= i < |input.documents| ==> input.documents[i].docHash in t'.document
  {
    CheckedRecord(t, sc, input, now);
    var dims := Dimensions(t, input, now);
    DimensionsKeep(t, input, now);
    hide Dimensions, Integrity, Redacted, EventOf, Record, InsertEvents, InsertDocuments;
    var t1 := InsertDocuments(dims, input, input.documents).value;
    DocumentsKeep(dims, input, input.documents);
    assert forall i :: 0 <= i < |input.findings| ==> (RuleKnown(t1, input.findings[i]) <==> RuleKnown(t, input.findings[i]));
    if forall i :: 0 <= i < |input.findings| ==> RuleKnown(t1, input.findings[i]) {
      FindingsRefer(t1, input);
      hide RuleKnown, DocumentHashes, AllEventRefs;
      EventsAppend(t1, input, input.findings);
      EventsKeep(t1, input, input.findings);
      ExtendsTransitive(t, dims, t1);
      ExtendsTransitive(t, t1, t1.(events := t1.events + EventsOf(input, input.findings)));
    }
  }

  lemma AcceptableExactly(t: Tables, sc: Scanner, input: RecordInput, now: int)
    requires Integrity(t)
    ensures Acceptable(t, sc, input) <==>
            && (forall i :: 0 <= i < |input.findings| ==> Redacted(sc, input.findings[i]))
            && (forall i :: 0 <= i < |input.findings| ==> input.findings[i].docHash in DocumentHashes(input.documents))
            && (forall i :: 0 <= i < |input.findings| ==> RuleKnown(t, input.findings[i]))
            && InsertDocuments(Dimensions(t, input, now), input, input.documents).Ok?
  {
    forall i | 0 <= i < |input.findings| {
      ListedHash(input, input.findings[i].docHash);
    }
    DocumentsSucceedExactly(t, input, now);
    hide Dimensions, Integrity, StrangeCounterparty, Redacted, DocumentHashes, RuleKnown, InsertDocuments;
  }

  lemma RefusedRecord(t: Tables, sc: Scanner, input: RecordInput, now: int)
    requires || (exists i :: 0 <= i < |input.findings| && !Redacted(sc, input.findings[i]))
             || (exists i :: 0 <= i < |input.findings| && input.findings[i].docHash !in DocumentHashes(input.documents))
             || InsertDocuments(Dimensions(t, input, now), input, input.documents).Err?
    ensures Record(t, sc, input, now).Err?
  {
    hide Dimensions, Redacted, DocumentHashes, RuleKnown, InsertDocuments, InsertEvents;
  }

  /**
   * The effect of one call: with integrity before, it goes through exactly when it is acceptable; it then
   * keeps integrity and every row, and appends exactly one event per finding, in order.
   */
  lemma RecordEffect(t: Tables, sc: Scanner, input: RecordInput, now: int)
    requires Integrity(t)
    ensures Record(t, sc, input, now).Ok? <==> Acceptable(t, sc, input)
    ensures Record(t, sc, input, now).Ok? ==>
              var t' := Record(t, sc, input, now).value;
              && Integrity(t') && Extends(t, t')
              && t'.events == t.events + EventsOf(input, input.findings)
              && forall i :: 0 <= i < |input.documents| ==> input.documents[i].docHash in t'.document
  {
    AcceptableExactly(t, sc, input, now);
    hide Dimensions, Integrity, Acceptable, Redacted, EventOf, DocumentHashes, RuleKnown, InsertDocuments, Record, Extends;
    if (forall i :: 0 <= i < |input.findings| ==> Redacted(sc, input.findings[i]))
       && (forall i :: 0 <= i < |input.findings| ==> input.findings[i].docHash in DocumentHashes(input.documents))
       && InsertDocuments(Dimensions(t, input, now), input, input.documents).Ok? {
      TransactionEffect(t, sc, input, now);
    } else {
      RefusedRecord(t, sc, input, now);
    }
  }

  lemma FindingsRefer(t: Tables, input: RecordInput)
    requires input.entityHash in t.entity && input.specId in t.specification
    requires forall i :: 0 <= i < |input.documents| ==> input.documents[i].docHash in t.document
    requires forall i :: 0 <= i < |input.findings| ==> input.findings[i].docHash in DocumentHashes(input.documents)
    requires forall i :: 0 <= i < |input.findings| ==> RuleKnown(t, input.findings[i])
    ensures AllEventRefs(t, input, input.findings)
  {
    forall i | 0 <= i < |input.findings| ensures EventRefs(t, EventOf(input, input.findings[i])) {
      assert RuleKnown(t, input.findings[i]);
      assert input.findings[i].docHash in DocumentHashes(input.documents);
    }
  }

  // ---------- Seeding ----------

  lemma {:induction false} InsertRulesKeep(rows: map<string, RuleRow>, specId: string, rules: seq<CatalogueRule>)
    ensures var rows' := InsertRules(rows, specId, rules);
            && Kept(rows, rows')
            && (forall k :: k in rows' && k !in rows ==> rows'[k].specId == specId)
            && forall i :: 0 <= i < |rules| ==> rules[i].ruleId in rows'
    decreases rules
  {
    if rules != [] {
      InsertRulesKeep(Insert(rows, rules[0].ruleId, CatalogueRow(specId, rules[0])), specId, rules[1..]);
    }
  }

  lemma SeedEffect(t: Tables, input: SeedInput)
    requires Integrity(t)
    ensures var t' := Seed(t, input);
            Integrity(t') && Extends(t, t') && forall i :: 0 <= i < |input.rules| ==> input.rules[i].ruleId in t'.rule
  {
    InsertRulesKeep(t.rule, input.specId, input.rules);
    var t' := Seed(t, input);
    forall k | k in t'.entity ensures EntityRefs(t', t'.entity[k]) {
      assert EntityRefs(t, t.entity[k]);
    }
    forall i | 0 <= i < |t'.events| ensures EventRefs(t', t'.events[i]) {
      assert EventRefs(t, t.events[i]);
    }
  }

  lemma {:induction false} InsertSpecificationsKeep(rows: map<string, SpecificationRow>, specs: seq<SeedPlan.Specification>, from: int)
    ensures var rows' := InsertSpecifications(rows, specs, from);
            Kept(rows, rows') && forall i :: 0 <= i < |specs| ==> specs[i].specId in rows'
    decreases specs
  {
    if specs != [] {
      InsertSpecificationsKeep(
        Insert(rows, specs[0].specId, SpecificationRow(specs[0].jurisdiction, specs[0].name, specs[0].version, from)), specs[1..], from);
    }
  }

  lemma {:induction false} InsertPlannedKeep(t: Tables, rules: seq<SeedPlan.PlannedRule>)
    requires Integrity(t) && forall i :: 0 <= i < |rules| ==> rules[i].specId in t.specification
    ensures InsertPlanned(t, rules).Ok?
    ensures var t' := InsertPlanned(t, rules).value;
            && Integrity(t') && t' == t.(rule := t'.rule) && Kept(t.rule, t'.rule)
            && forall key :: key in t'.rule <==> key in t.rule || PlansRule(rules, key)
    decreases rules
  {
    if rules != [] {
      var key := rules[0].rule.ruleId;
      if key in t.rule {
        InsertPlannedKeep(t, rules[1..]);
      } else {
        var t1 := t.(rule := t.rule[key := PlannedRow(rules[0])]);
        OneRuleKeeps(t, key, PlannedRow(rules[0]));
        hide Integrity;
        InsertPlannedKeep(t1, rules[1..]);
      }
      forall k ensures PlansRule(rules, k) <==> k == key || PlansRule(rules[1..], k) {
        PlansRuleTail(rules, k);
      }
    }
  }

  ghost predicate PlansRule(rules: seq<SeedPlan.PlannedRule>, key: string) {
    exists i :: 0 <= i < |rules| && rules[i].rule.ruleId == key
  }

  lemma PlansRuleTail(rules: seq<SeedPlan.PlannedRule>, key: string)
    requires rules != []
    ensures PlansRule(rules, key) <==> rules[0].rule.ruleId == key || PlansRule(rules[1..], key)
  {
    if PlansRule(rules[1..], key) {
      var i :| 0 <= i < |rules[1..]| && rules[1..][i].rule.ruleId == key;
      assert rules[i + 1].rule.ruleId == key;
    }
    if PlansRule(rules, key) && rules[0].rule.ruleId != key {
      var i :| 0 <= i < |rules| && rules[i].rule.ruleId == key;
      assert rules[1..][i - 1].rule.ruleId == key;
    }
  }

  lemma OneRuleKeeps(t: Tables, key: string, row: RuleRow)
    requires Integrity(t) && key !in t.rule && row.specId in t.specification
    ensures Integrity(t.(rule := t.rule[key := row]))
  {
    var t' := t.(rule := t.rule[key := row]);
    forall k | k in t'.entity ensures EntityRefs(t', t'.entity[k]) {
      assert EntityRefs(t, t.entity[k]);
    }
    forall i | 0 <= i < |t'.events| ensures EventRefs(t', t'.events[i]) {
      assert EventRefs(t, t.events[i]);
    }
  }

  lemma MoreSpecificationsKeep(t: Tables, rows: map<string, SpecificationRow>)
    requires Integrity(t) && Kept(t.specification, rows)
    ensures Integrity(t.(specification := rows)) && Extends(t, t.(specification := rows))
  {
    var t' := t.(specification := rows);
    forall k | k in t'.entity ensures EntityRefs(t', t'.entity[k]) {
      assert EntityRefs(t, t.entity[k]);
    }
    forall i | 0 <= i < |t'.events| ensures EventRefs(t', t'.events[i]) {
      assert EventRefs(t, t.events[i]);
    }
  }

  /**
   * Applying a plan of the seeder goes through exactly when it lists a specification; afterwards the rules are
   * those there before and the planned ones.
   */
  lemma ApplyEffect(t: Tables, entries: seq<SeedPlan.RegistryEntry>, lib: SeedPlan.Library, from: int)
    requires Integrity(t) && SeedPlan.Sorts(lib) && SeedPlan.Planned(entries, lib).Ok?
    ensures var plan := SeedPlan.Planned(entries, lib).value;
            && (Apply(t, plan, from).Ok? <==> plan.specifications != [])
            && (Apply(t, plan, from).Ok? ==>
                  && Integrity(Apply(t, plan, from).value) && Extends(t, Apply(t, plan, from).value)
                  && forall key :: key in Apply(t, plan, from).value.rule <==> key in t.rule || PlansRule(plan.rules, key))
  {
    var plan := SeedPlan.Planned(entries, lib).value;
    var rows := InsertSpecifications(t.specification, plan.specifications, from);
    InsertSpecificationsKeep(t.specification, plan.specifications, from);
    MoreSpecificationsKeep(t, rows);
    forall i | 0 <= i < |plan.rules| ensures plan.rules[i].specId in rows {
      SeedPlan.PlanOwnersAreListed(entries, lib, plan.rules[i]);
      var spec := SeedPlan.SpecificationOf(SeedPlan.ById(entries, plan.rules[i].specId).value);
      var j :| 0 <= j < |plan.specifications| && plan.specifications[j] == spec;
    }
    hide Integrity, SeedPlan.Planned, InsertSpecifications, PlansRule;
    InsertPlannedKeep(t.(specification := rows), plan.rules);
  }

  /**
   * After seeding, a rule id is known exactly when it was before or some assertion of a planned file has it as
   * its last value of local name id.
   */
  lemma SeedingKnowsExactly(t: Tables, entries: seq<SeedPlan.RegistryEntry>, lib: SeedPlan.Library, from: int, f: FindingInput)
    requires Integrity(t) && SeedPlan.Sorts(lib) && SeedPlan.Planned(entries, lib).Ok?
    ensures RuleKnown(AfterCall(t, ApplyCall(entries, lib, from)), f) <==>
            RuleKnown(t, f) || SeedPlan.LastIdPlanned(entries, lib, f.ruleId.value)
  {
    var plan := SeedPlan.Planned(entries, lib).value;
    ApplyEffect(t, entries, lib, from);
    hide Integrity, SeedPlan.Planned, Apply, SeedPlan.LastIdPlanned;
    if f.ruleId.Some? {
      PlannedKeys(entries, lib, f.ruleId.value);
    }
  }

  lemma PlannedKeys(entries: seq<SeedPlan.RegistryEntry>, lib: SeedPlan.Library, id: string)
    requires SeedPlan.Sorts(lib) && SeedPlan.Planned(entries, lib).Ok?
    ensures var plan := SeedPlan.Planned(entries, lib).value;
            && (PlansRule(plan.rules, id) <==> SeedPlan.LastIdPlanned(entries, lib, id))
            && (PlansRule(plan.rules, id) ==> plan.specifications != [])
  {
    var plan := SeedPlan.Planned(entries, lib).value;
    SeedPlan.PlannedExactly(entries, lib, id);
    hide SeedPlan.Planned, SeedPlan.LastIdPlanned;
    if PlansRule(plan.rules, id) {
      var i :| 0 <= i < |plan.rules| && plan.rules[i].rule.ruleId == id;
      assert plan.rules[i] in plan.rules;
      SeedPlan.PlanOwnersAreListed(entries, lib, plan.rules[i]);
    }
    if SeedPlan.PlannedOnce(entries, plan, id) {
      var p := SeedPlan.TheOne(entries, plan, id);
      var i :| 0 <= i < |plan.rules| && plan.rules[i] == p;
    }
  }

  // ---------- Over every sequence of calls ----------

  datatype Call =
    | RecordCall(sc: Scanner, input: RecordInput, now: int)
    | SeedCall(seed: SeedInput)
    | ApplyCall(entries: seq<SeedPlan.RegistryEntry>, lib: SeedPlan.Library, from: int)

  ghost predicate Callable(c: Call) {
    c.ApplyCall? ==> SeedPlan.Sorts(c.lib)
  }

  /** The tables after a call; a call that throws leaves them as they were. */
  function AfterCall(t: Tables, c: Call): Tables {
    match c
    case RecordCall(sc, input, now) =>
      (match Record(t, sc, input, now) case Err(_) => t case Ok(t') => t')
    case SeedCall(seed) => Seed(t, seed)
    case ApplyCall(entries, lib, from) =>
      match SeedPlan.Planned(entries, lib)
      case Err(_) => t
      case Ok(plan) => match Apply(t, plan, from) case Err(_) => t case Ok(t') => t'
  }

  function AfterCalls(t: Tables, calls: seq<Call>): Tables
    decreases calls
  {
    if calls == [] then t else AfterCalls(AfterCall(t, calls[0]), calls[1..])
  }

  lemma CallKeeps(t: Tables, c: Call)
    requires Integrity(t) && Callable(c)
    ensures Integrity(AfterCall(t, c)) && Extends(t, AfterCall(t, c))
  {
    match c
    case RecordCall(sc, input, now) => RecordEffect(t, sc, input, now);
    case SeedCall(seed) => SeedEffect(t, seed);
    case ApplyCall(entries, lib, from) =>
      if SeedPlan.Planned(entries, lib).Ok? {
        ApplyEffect(t, entries, lib, from);
      }
  }

  /** Over every sequence of calls, no row changes or disappears and every reference names a row that exists. */
  lemma {:induction false} CorpusIsAppendOnly(t: Tables, calls: seq<Call>)
    requires Integrity(t) && forall i :: 0 <= i < |calls| ==> Callable(calls[i])
    ensures Integrity(AfterCalls(t, calls)) && Extends(t, AfterCalls(t, calls))
    decreases calls
  {
    if calls != [] {
      CallKeeps(t, calls[0]);
      hide Integrity, AfterCall;
      CorpusIsAppendOnly(AfterCall(t, calls[0]), calls[1..]);
      ExtendsTransitive(t, AfterCall(t, calls[0]), AfterCalls(AfterCall(t, calls[0]), calls[1..]));
    }
  }

  /** The events of one call: one for each finding of a recording that goes through. */
  function Writes(t: Tables, c: Call): seq<EventRow> {
    if c.RecordCall? && Record(t, c.sc, c.input, c.now).Ok? then EventsOf(c.input, c.input.findings) else []
  }

  function WrittenBy(t: Tables, calls: seq<Call>): seq<EventRow>
    decreases calls
  {
    if calls == [] then [] else Writes(t, calls[0]) + WrittenBy(AfterCall(t, calls[0]), calls[1..])
  }

  /** The events are exactly one per finding of the calls that went through, in order, and nothing else. */
  lemma {:induction false} OneEventPerFinding(t: Tables, calls: seq<Call>)
    requires Integrity(t) && forall i :: 0 <= i < |calls| ==> Callable(calls[i])
    ensures AfterCalls(t, calls).events == t.events + WrittenBy(t, calls)
    decreases calls
  {
    if calls != [] {
      CallKeeps(t, calls[0]);
      CallWrites(t, calls[0]);
      hide Integrity, AfterCall, Record, Writes, Callable;
      OneEventPerFinding(AfterCall(t, calls[0]), calls[1..]);
      Assoc(t.events, Writes(t, calls[0]), WrittenBy(AfterCall(t, calls[0]), calls[1..]));
    } else {
      assert t.events + [] == t.events;
    }
  }

  lemma CallWrites(t: Tables, c: Call)
    requires Integrity(t) && Callable(c)
    ensures AfterCall(t, c).events == t.events + Writes(t, c)
  {
    match c
    case RecordCall(sc, input, now) => RecordEffect(t, sc, input, now);
    case SeedCall(seed) =>
    case ApplyCall(entries, lib, from) =>
      if SeedPlan.Planned(entries, lib).Ok? && Apply(t, SeedPlan.Planned(entries, lib).value, from).Ok? {
        InsertPlannedEvents(t.(specification := InsertSpecifications(t.specification, SeedPlan.Planned(entries, lib).value.specifications, from)),
                            SeedPlan.Planned(entries, lib).value.rules);
      }
  }

  lemma {:induction false} InsertPlannedEvents(t: Tables, rules: seq<SeedPlan.PlannedRule>)
    requires InsertPlanned(t, rules).Ok?
    ensures InsertPlanned(t, rules).value.events == t.events
    decreases rules
  {
    if rules != [] {
      if rules[0].rule.ruleId in t.rule {
        InsertPlannedEvents(t, rules[1..]);
      } else {
        InsertPlannedEvents(t.(rule := t.rule[rules[0].rule.ruleId := PlannedRow(rules[0])]), rules[1..]);
      }
    }
  }

  /** Every finding that names a rule names one some planned assertion has as its last value of local name id. */
  ghost predicate NamesPlanned(input: RecordInput, entries: seq<SeedPlan.RegistryEntry>, lib: SeedPlan.Library) {
    forall i :: 0 <= i < |input.findings| && input.findings[i].ruleId.Some? ==>
      SeedPlan.LastIdPlanned(entries, lib, input.findings[i].ruleId.value)
  }

  lemma SeededStays(t: Tables, entries: seq<SeedPlan.RegistryEntry>, lib: SeedPlan.Library, from: int, calls: seq<Call>, f: FindingInput)
    requires Integrity(t) && SeedPlan.Sorts(lib) && SeedPlan.Planned(entries, lib).Ok?
    requires forall i :: 0 <= i < |calls| ==> Callable(calls[i])
    requires f.ruleId.Some? ==> SeedPlan.LastIdPlanned(entries, lib, f.ruleId.value)
    ensures var later := AfterCalls(t, [ApplyCall(entries, lib, from)] + calls); Integrity(later) && RuleKnown(later, f)
  {
    var first := ApplyCall(entries, lib, from);
    var all := [first] + calls;
    assert all[0] == first && all[1..] == calls;
    CallKeeps(t, first);
    SeedingKnowsExactly(t, entries, lib, from, f);
    assert AfterCalls(t, all) == AfterCalls(AfterCall(t, first), calls);
    hide Integrity, AfterCalls, AfterCall, SeedPlan.LastIdPlanned, SeedPlan.Planned;
    CorpusIsAppendOnly(AfterCall(t, first), calls);
  }

  /**
   * Once the catalogue is seeded, `assertRulesKnown` accepts every call whose findings name planned rules,
   * whatever calls came in between.
   */
  lemma SeededRunsAreAccepted(
    t: Tables, entries: seq<SeedPlan.RegistryEntry>, lib: SeedPlan.Library, from: int, calls: seq<Call>,
    sc: Scanner, input: RecordInput, now: int)
    requires Integrity(t) && SeedPlan.Sorts(lib) && SeedPlan.Planned(entries, lib).Ok?
    requires forall i :: 0 <= i < |calls| ==> Callable(calls[i])
    requires NamesPlanned(input, entries, lib)
    ensures var later := AfterCalls(t, [ApplyCall(entries, lib, from)] + calls);
            && Integrity(later)
            && (forall i :: 0 <= i < |input.findings| ==> RuleKnown(later, input.findings[i]))
            && Record(later, sc, input, now) != Err(SpecCatalogueIncomplete)
  {
    var later := AfterCalls(t, [ApplyCall(entries, lib, from)] + calls);
    SeededStays(t, entries, lib, from, calls, FindingInput("", "", "", None, None, None, None, None, None, None));
    hide AfterCalls, SeedPlan.Planned, SeedPlan.LastIdPlanned, Integrity, Record;
    forall i | 0 <= i < |input.findings| ensures RuleKnown(later, input.findings[i]) {
      SeededStays(t, entries, lib, from, calls, input.findings[i]);
    }
    KnownRulesDoNotThrow(later, sc, input, now);
  }

  lemma KnownRulesDoNotThrow(t: Tables, sc: Scanner, input: RecordInput, now: int)
    requires Integrity(t) && forall i :: 0 <= i < |input.findings| ==> RuleKnown(t, input.findings[i])
    ensures Record(t, sc, input, now) != Err(SpecCatalogueIncomplete)
  {
    DimensionsKeep(t, input, now);
    var r := InsertDocuments(Dimensions(t, input, now), input, input.documents);
    DocumentErrors(Dimensions(t, input, now), input, input.documents);
    if r.Ok? {
      DocumentsKeep(Dimensions(t, input, now), input, input.documents);
    }
    hide Dimensions, Integrity;
    if r.Ok? {
      EventErrors(r.value, input, input.findings);
    }
  }

  /** A call whose findings all name a document of the call is never refused for an unknown one. */
  lemma KnownDocumentsDoNotThrow(t: Tables, sc: Scanner, input: RecordInput, now: int)
    requires forall i :: 0 <= i < |input.findings| ==> input.findings[i].docHash in DocumentHashes(input.documents)
    ensures Record(t, sc, input, now) != Err(UnknownDocument)
  {
    if forall i :: 0 <= i < |input.findings| ==> Redacted(sc, input.findings[i]) {
      CheckedRecord(t, sc, input, now);
      hide Record, InsertDocuments, InsertEvents, Dimensions, DocumentHashes, Redacted, RuleKnown;
      var dims := Dimensions(t, input, now);
      DocumentErrors(dims, input, input.documents);
      if InsertDocuments(dims, input, input.documents).Ok? {
        EventErrors(InsertDocuments(dims, input, input.documents).value, input, input.findings);
      }
    }
  }

  lemma {:induction false} DocumentErrors(t: Tables, input: RecordInput, documents: seq<DocumentInput>)
    ensures InsertDocuments(t, input, documents).Err? ==> InsertDocuments(t, input, documents).error == ForeignKey
    decreases documents
  {
    if documents != [] {
      DocumentErrors(t, input, documents[1..]);
      DocumentErrors(t.(document := t.document[documents[0].docHash := DocumentOf(input, documents[0])]), input, documents[1..]);
    }
  }

  lemma {:induction false} EventErrors(t: Tables, input: RecordInput, findings: seq<FindingInput>)
    ensures InsertEvents(t, input, findings).Err? ==> InsertEvents(t, input, findings).error == ForeignKey
    decreases findings
  {
    if findings != [] {
      EventErrors(t.(events := t.events + [EventOf(input, findings[0])]), input, findings[1..]);
    }
  }

  // ---------- What the rows say ----------

  /** The text of a recurrence key: who, which rule, where, and the shape, in this order; null reads as empty. */
  ghost predicate KeyTextSays(text: string, input: RecordInput, f: FindingInput) {
    var shape := if f.valueShape.None? then ["no-shape"]
                 else ["shape", Recurrence.LengthText(f.valueShape.value.len), Recurrence.CharsetOrEmpty(f.valueShape.value.charset),
                       Recurrence.OrEmpty(f.valueShape.value.regexClass), Recurrence.OrEmpty(f.valueShape.value.expected)];
    Recurrence.FreeKey(input.entityHash, f.ruleId, f.xpath, f.valueShape)
    ==> Recurrence.Split(text) == [input.entityHash, Recurrence.OrEmpty(f.ruleId), Recurrence.OrEmpty(f.xpath)] + shape
  }

  ghost predicate EventSays(e: EventRow, input: RecordInput, f: FindingInput) {
    && e.docHash == f.docHash && e.stage == f.stage && e.outcome == f.outcome && e.ruleId == f.ruleId
    && e.businessTerm == f.businessTerm && e.xpath == f.xpath && e.failureClass == f.failureClass && e.valueShape == f.valueShape
    && (f.attempt == Some(e.attempt) || (f.attempt == None && e.attempt == 1))
    && e.entityHash == input.entityHash && e.direction == input.direction && e.specId == input.specId
    && e.specVersion == input.specVersion && e.rulesetHash == input.rulesetHash
    && KeyTextSays(e.recurrenceText, input, f)
  }

  /** Each appended event says, column by column, its finding and its call. */
  lemma EventsSayTheirFindings(t: Tables, sc: Scanner, input: RecordInput, now: int, i: nat)
    requires Integrity(t) && Record(t, sc, input, now).Ok? && i < |input.findings|
    ensures var events := Record(t, sc, input, now).value.events;
            |events| == |t.events| + |input.findings| && EventSays(events[|t.events| + i], input, input.findings[i])
  {
    hide Record, Integrity, Acceptable, Extends;
    RecordEffect(t, sc, input, now);
    var f := input.findings[i];
    if Recurrence.FreeKey(input.entityHash, f.ruleId, f.xpath, f.valueShape) {
      Recurrence.KeyTextSplits(input.entityHash, f.ruleId, f.xpath, f.valueShape);
    }
    hide Recurrence.KeyText, Recurrence.FreeKey, Recurrence.Split;
  }

  ghost predicate BucketHolds(bucket: string, n: int) {
    || (bucket == "1" && n <= 1) || (bucket == "2-5" && 2 <= n <= 5) || (bucket == "6-20" && 6 <= n <= 20)
    || (bucket == "21-100" && 21 <= n <= 100) || (bucket == "100+" && 100 < n)
  }

  /** The first of the call's documents with the hash; its own counterparty goes before the call's. */
  ghost predicate DocumentSays(row: DocumentRow, hash: string, input: RecordInput, documents: seq<DocumentInput>, i: nat) {
    && i < |documents| && documents[i].docHash == hash && (forall j :: 0 <= j < i ==> documents[j].docHash != hash)
    && var d := documents[i];
    && row.entityHash == input.entityHash && row.direction == input.direction
    && row.counterpartyHash == (if d.counterpartyHash.Some? then d.counterpartyHash else input.counterpartyHash)
    && row.docType == d.docType && row.scenario == d.scenario && row.currency == d.currency
    && row.hasAllowanceCharge == d.hasAllowanceCharge && row.hasMultiTaxRate == d.hasMultiTaxRate
    && BucketHolds(row.lineCountBucket, d.lineCount)
  }

  ghost predicate NewDocument(row: DocumentRow, hash: string, input: RecordInput, documents: seq<DocumentInput>) {
    exists i: nat :: DocumentSays(row, hash, input, documents, i)
  }

  lemma DocumentOfSays(input: RecordInput, documents: seq<DocumentInput>)
    requires documents != []
    ensures NewDocument(DocumentOf(input, documents[0]), documents[0].docHash, input, documents)
  {
    assert DocumentSays(DocumentOf(input, documents[0]), documents[0].docHash, input, documents, 0);
  }

  lemma LaterDocumentSays(row: DocumentRow, hash: string, input: RecordInput, documents: seq<DocumentInput>)
    requires documents != [] && documents[0].docHash != hash && NewDocument(row, hash, input, documents[1..])
    ensures NewDocument(row, hash, input, documents)
  {
    var i: nat :| DocumentSays(row, hash, input, documents[1..], i);
    assert forall j :: 0 < j < |documents| ==> documents[j] == documents[1..][j - 1];
    assert DocumentSays(row, hash, input, documents, i + 1) by {
      hide BucketHolds;
    }
  }

  lemma {:induction false} NewDocumentsSay(t: Tables, input: RecordInput, documents: seq<DocumentInput>, hash: string)
    requires InsertDocuments(t, input, documents).Ok?
    ensures var t' := InsertDocuments(t, input, documents).value;
            && t' == t.(document := t'.document)
            && (hash in t.document ==> hash in t'.document && t'.document[hash] == t.document[hash])
            && (hash in t'.document && hash !in t.document ==> NewDocument(t'.document[hash], hash, input, documents))
    decreases documents
  {
    if documents != [] {
      hide DocumentOf, DocumentRefs, NewDocument;
      var d := documents[0];
      if d.docHash in t.document {
        NewDocumentsSay(t, input, documents[1..], hash);
        if hash in InsertDocuments(t, input, documents).value.document && hash !in t.document {
          LaterDocumentSays(InsertDocuments(t, input, documents).value.document[hash], hash, input, documents);
        }
      } else {
        var t1 := t.(document := t.document[d.docHash := DocumentOf(input, d)]);
        NewDocumentsSay(t1, input, documents[1..], hash);
        DocumentOfSays(input, documents);
        if hash in InsertDocuments(t, input, documents).value.document && hash !in t1.document {
          LaterDocumentSays(InsertDocuments(t, input, documents).value.document[hash], hash, input, documents);
        }
      }
    }
  }

  lemma {:induction false} EventsTouchNothingElse(t: Tables, input: RecordInput, findings: seq<FindingInput>)
    requires InsertEvents(t, input, findings).Ok?
    ensures InsertEvents(t, input, findings).value == t.(events := InsertEvents(t, input, findings).value.events)
    decreases findings
  {
    if findings != [] {
      hide EventOf, EventRefs;
      EventsTouchNothingElse(t.(events := t.events + [EventOf(input, findings[0])]), input, findings[1..]);
    }
  }

  /** A row that a call adds to a dimension table, or to none, says what the call says. */
  ghost predicate DimensionsSay(t: Tables, t': Tables, input: RecordInput, now: int) {
    && (forall k :: k in t'.specification && k !in t.specification ==>
          && k == input.specId
          && var row := t'.specification[k];
          row.jurisdiction == input.jurisdiction && row.name == input.specName && row.version == input.specVersion && row.effectiveFrom == now)
    && (forall k :: k in t'.sourceSystem && k !in t.sourceSystem ==>
          Some(k) == input.sysId && t'.sourceSystem[k].vendor == k && t'.sourceSystem[k].product == k)
    && (forall k :: k in t'.tenant && k !in t.tenant ==>
          && k == input.tenantHash
          && var row := t'.tenant[k];
          row.sectorCode == input.sectorCode && row.sizeBand == input.sizeBand && row.country == input.country)
    && (forall k :: k in t'.entity && k !in t.entity ==>
          && k == input.entityHash
          && var row := t'.entity[k];
          && row.tenantHash == input.tenantHash && row.jurisdiction == input.jurisdiction && row.sysId == input.sysId
          && row.sizeBand == input.sizeBand && row.scenarioProfile == input.scenarioProfile)
    && (forall k :: k in t'.counterparty && k !in t.counterparty ==>
          Some(k) == input.counterpartyHash && t'.counterparty[k].jurisdiction == input.jurisdiction)
    && input.specId in t'.specification && input.tenantHash in t'.tenant && input.entityHash in t'.entity
    && (input.sysId.Some? ==> input.sysId.value in t'.sourceSystem)
    && (input.counterpartyHash.Some? ==> input.counterpartyHash.value in t'.counterparty)
    && t'.rule == t.rule
  }

  lemma DimensionRows(t: Tables, input: RecordInput, now: int)
    ensures DimensionsSay(t, Dimensions(t, input, now), input, now) && Dimensions(t, input, now).document == t.document
  {
  }

  lemma DimensionsIgnoreTheRest(t: Tables, t': Tables, t2: Tables, input: RecordInput, now: int)
    requires DimensionsSay(t, t', input, now) && t2 == t'.(document := t2.document, events := t2.events)
    ensures DimensionsSay(t, t2, input, now)
  {
  }

  /** What a successful call adds besides its events. */
  lemma NewRowsSayTheirCall(t: Tables, sc: Scanner, input: RecordInput, now: int, hash: string)
    requires Record(t, sc, input, now).Ok?
    ensures var t' := Record(t, sc, input, now).value;
            && DimensionsSay(t, t', input, now)
            && (hash in t.document ==> hash in t'.document && t'.document[hash] == t.document[hash])
            && (hash in t'.document && hash !in t.document ==> NewDocument(t'.document[hash], hash, input, input.documents))
  {
    var dims := Dimensions(t, input, now);
    DimensionRows(t, input, now);
    hide Dimensions, InsertDocuments, InsertEvents, Redacted, DocumentHashes, RuleKnown, NewDocument;
    NewDocumentsSay(dims, input, input.documents, hash);
    var t1 := InsertDocuments(dims, input, input.documents).value;
    EventsTouchNothingElse(t1, input, input.findings);
    hide DimensionsSay;
    DimensionsIgnoreTheRest(t, dims, Record(t, sc, input, now).value, input, now);
  }

  // The rows of the rule catalogue.

  ghost predicate RuleSays(row: RuleRow, specId: string, r: CatalogueRule) {
    && row.specId == specId && row.nativeRuleCode == r.nativeRuleCode && row.severity == r.severity && row.businessTerm == r.businessTerm
    && row.xpathContext == r.xpathContext && row.failureClass == r.failureClass && row.assertText == r.assertText
  }

  ghost predicate FirstRule(row: RuleRow, key: string, specId: string, rules: seq<CatalogueRule>, i: nat) {
    i < |rules| && rules[i].ruleId == key && (forall j :: 0 <= j < i ==> rules[j].ruleId != key) && RuleSays(row, specId, rules[i])
  }

  ghost predicate NewRule(row: RuleRow, key: string, specId: string, rules: seq<CatalogueRule>) {
    exists i: nat :: FirstRule(row, key, specId, rules, i)
  }

  /** A rule that seeding adds says what the first given rule of its id says. */
  lemma {:induction false} NewRulesSay(rows: map<string, RuleRow>, specId: string, rules: seq<CatalogueRule>, key: string)
    requires key in InsertRules(rows, specId, rules) && key !in rows
    ensures NewRule(InsertRules(rows, specId, rules)[key], key, specId, rules)
    decreases rules
  {
    var row := InsertRules(rows, specId, rules)[key];
    var rows1 := Insert(rows, rules[0].ruleId, CatalogueRow(specId, rules[0]));
    if key in rows1 {
      InsertRulesKeep(rows1, specId, rules[1..]);
      assert row == rows1[key];
      assert FirstRule(row, key, specId, rules, 0);
    } else {
      NewRulesSay(rows1, specId, rules[1..], key);
      hide RuleSays;
      var i: nat :| FirstRule(row, key, specId, rules[1..], i);
      assert forall j :: 0 < j < |rules| ==> rules[j] == rules[1..][j - 1];
      assert FirstRule(row, key, specId, rules, i + 1);
    }
  }

  ghost predicate PlannedRuleSays(row: RuleRow, p: SeedPlan.PlannedRule) {
    && row.specId == p.specId && row.nativeRuleCode == p.rule.nativeRuleCode && row.severity == p.rule.severity
    && row.businessTerm == p.rule.businessTerm && row.xpathContext == p.rule.xpathContext
    && row.failureClass == p.rule.failureClass && row.assertText == p.rule.assertText
  }

  ghost predicate FirstPlanned(row: RuleRow, key: string, rules: seq<SeedPlan.PlannedRule>, i: nat) {
    i < |rules| && rules[i].rule.ruleId == key && (forall j :: 0 <= j < i ==> rules[j].rule.ruleId != key) && PlannedRuleSays(row, rules[i])
  }

  ghost predicate NewPlanned(row: RuleRow, key: string, rules: seq<SeedPlan.PlannedRule>) {
    exists i: nat :: FirstPlanned(row, key, rules, i)
  }

  /** A rule that applying a plan adds says what the first planned rule of its id says, and no other table's rows change. */
  lemma {:induction false} NewPlannedSay(t: Tables, rules: seq<SeedPlan.PlannedRule>, key: string)
    requires InsertPlanned(t, rules).Ok?
    ensures var t' := InsertPlanned(t, rules).value;
            && t' == t.(rule := t'.rule)
            && (key in t.rule ==> key in t'.rule && t'.rule[key] == t.rule[key])
            && (key in t'.rule && key !in t.rule ==> NewPlanned(t'.rule[key], key, rules))
    decreases rules
  {
    if rules != [] {
      var t' := InsertPlanned(t, rules).value;
      var first := rules[0].rule.ruleId;
      if first !in t.rule && key == first {
        NewPlannedSay(t.(rule := t.rule[first := PlannedRow(rules[0])]), rules[1..], key);
        assert FirstPlanned(t'.rule[key], key, rules, 0);
      } else {
        hide PlannedRuleSays, PlannedRow;
        NewPlannedSay(if first in t.rule then t else t.(rule := t.rule[first := PlannedRow(rules[0])]), rules[1..], key);
        if key in t'.rule && key !in t.rule {
          var i: nat :| FirstPlanned(t'.rule[key], key, rules[1..], i);
          assert forall j :: 0 < j < |rules| ==> rules[j] == rules[1..][j - 1];
          assert FirstPlanned(t'.rule[key], key, rules, i + 1);
        }
      }
    }
  }

  ghost predicate SpecificationSays(row: SpecificationRow, spec: SeedPlan.Specification, from: int) {
    row.jurisdiction == spec.jurisdiction && row.name == spec.name && row.version == spec.version && row.effectiveFrom == from
  }

  ghost predicate NewSpecification(row: SpecificationRow, key: string, specs: seq<SeedPlan.Specification>, from: int) {
    exists i :: 0 <= i < |specs| && specs[i].specId == key && SpecificationSays(row, specs[i], from)
  }

  lemma {:induction false} NewSpecificationsSay(rows: map<string, SpecificationRow>, specs: seq<SeedPlan.Specification>, from: int, key: string)
    requires key in InsertSpecifications(rows, specs, from) && key !in rows
    ensures NewSpecification(InsertSpecifications(rows, specs, from)[key], key, specs, from)
    decreases specs
  {
    var row := InsertSpecifications(rows, specs, from)[key];
    var rows1 := Insert(rows, specs[0].specId, SpecificationRow(specs[0].jurisdiction, specs[0].name, specs[0].version, from));
    if key in rows1 {
      InsertSpecificationsKeep(rows1, specs[1..], from);
      assert specs[0].specId == key && SpecificationSays(row, specs[0], from);
    } else {
      NewSpecificationsSay(rows1, specs[1..], from, key);
      hide SpecificationSays;
      var i :| 0 <= i < |specs[1..]| && specs[1..][i].specId == key && SpecificationSays(row, specs[1..][i], from);
      assert specs[1..][i] == specs[i + 1];
    }
  }

  /** The rows that seeding a catalogue adds. */
  lemma SeededRowsSay(t: Tables, input: SeedInput, key: string)
    ensures var t' := Seed(t, input);
            && t' == t.(specification := t'.specification, rule := t'.rule)
            && (key in t'.rule && key !in t.rule ==> NewRule(t'.rule[key], key, input.specId, input.rules))
            && (key in t'.specification && key !in t.specification ==>
                  && key == input.specId
                  && var row := t'.specification[key];
                  row.jurisdiction == input.jurisdiction && row.name == input.specName && row.version == input.version
                  && row.effectiveFrom == input.effectiveFrom)
  {
    hide InsertRules, NewRule;
    if key in Seed(t, input).rule && key !in t.rule {
      NewRulesSay(t.rule, input.specId, input.rules, key);
    }
  }

  /** And those that applying a plan adds. */
  lemma AppliedRowsSay(t: Tables, plan: SeedPlan.Plan, from: int, key: string)
    requires Apply(t, plan, from).Ok?
    ensures var t' := Apply(t, plan, from).value;
            && t' == t.(specification := t'.specification, rule := t'.rule)
            && (key in t'.rule && key !in t.rule ==> NewPlanned(t'.rule[key], key, plan.rules))
            && (key in t'.specification && key !in t.specification ==> NewSpecification(t'.specification[key], key, plan.specifications, from))
  {
    hide InsertPlanned, InsertSpecifications, NewPlanned, NewSpecification;
    var rows := InsertSpecifications(t.specification, plan.specifications, from);
    NewPlannedSay(t.(specification := rows), plan.rules, key);
    if key in rows && key !in t.specification {
      NewSpecificationsSay(t.specification, plan.specifications, from, key);
    }
  }
}
