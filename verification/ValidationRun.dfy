/**
 * `runValidation` (apps/web/modules/audit/validate.ts): documents in chunks through the validator, rows for
 * the client's register, and the hand-off to `recordCorpus`. The sidecar's answer to a document is a parameter.
 */
module ValidationRun {
  import opened Base
  import opened Canonical
  import opened Schematron
  import opened Shapes
  import Corpus
  import SeedPlan
  import Storage

  const VALIDATE_BATCH_SIZE := 50

  /** What `validateDocument` gives for a document: an answer, the 422 case, or an exception. */
  datatype Reply = Response(rulesetHash: string, outcome: Outcome, findings: seq<Finding>) | Malformed | Fails(error: string)

  datatype ValidatedDocument = ValidatedDocument(
    docHash: string, docType: DocType, scenario: Scenario, currency: string, lineCount: nat,
    hasAllowanceCharge: bool, hasMultiTaxRate: bool)

  datatype PersistedFinding = PersistedFinding(
    docHash: string, outcome: Outcome, ruleId: Option<string>, businessTerm: Option<string>, xpath: Option<string>,
    failureClass: Option<string>, valueShape: Option<ValueShape>, message: Option<string>)

  datatype StoredFinding = StoredFinding(invoiceId: string, rulesetHash: string, row: PersistedFinding)

  function PassRow(docHash: string): PersistedFinding {
    PersistedFinding(docHash, Pass, None, None, None, None, None, None)
  }

  function FindingRow(docHash: string, f: Finding, documentOutcome: Outcome): PersistedFinding {
    PersistedFinding(docHash, if f.severity == Severity.Warning then Warn else documentOutcome, Some(f.ruleId), f.businessTerm,
                     Some(f.xpath), f.failureClass, Some(f.valueShape), Some(f.message))
  }

  function Rows(docHash: string, reply: Reply): (rows: seq<PersistedFinding>)
    requires reply.Response?
    ensures rows != []
  {
    if reply.findings == [] then [PassRow(docHash)]
    else seq(|reply.findings|, i requires 0 <= i < |reply.findings| => FindingRow(docHash, reply.findings[i], reply.outcome))
  }

  function StoredRows(l: Storage.Loaded, reply: Reply): seq<StoredFinding>
    requires reply.Response?
  {
    var rows := Rows(l.docHash, reply);
    seq(|rows|, i requires 0 <= i < |rows| => StoredFinding(l.invoiceId, reply.rulesetHash, rows[i]))
  }

  function DocumentOf(l: Storage.Loaded): ValidatedDocument {
    var h := l.doc.header;
    ValidatedDocument(l.docHash, h.docType, h.scenario, h.currency, |l.doc.lines|, h.hasAllowanceCharge, h.hasMultiTaxRate)
  }

  // ---------- The run as a fold ----------

  datatype Progress = Progress(
    rulesetHash: Option<string>, documents: seq<ValidatedDocument>, findings: seq<PersistedFinding>, parseErrors: nat,
    stored: seq<StoredFinding>, defects: nat)

  /** One document; `stored` and `defects` are the rows of the client's tables. */
  function Step(p: Progress, l: Storage.Loaded, reply: Reply): Progress
    requires !reply.Fails?
  {
    if reply.Malformed? then p.(parseErrors := p.parseErrors + 1, defects := p.defects + 1)
    else Progress(Some(reply.rulesetHash), p.documents + [DocumentOf(l)], p.findings + Rows(l.docHash, reply), p.parseErrors,
                  p.stored + StoredRows(l, reply), p.defects)
  }

  type Sidecar = Storage.Loaded -> Reply

  function Over(p: Progress, loaded: seq<Storage.Loaded>, respond: Sidecar): Progress
    decreases loaded
  {
    if loaded == [] || respond(loaded[0]).Fails? then p else Over(Step(p, loaded[0], respond(loaded[0])), loaded[1..], respond)
  }

  predicate Completes(loaded: seq<Storage.Loaded>, respond: Sidecar) {
    forall i :: 0 <= i < |loaded| ==> !respond(loaded[i]).Fails?
  }

  /** The first document the run does not get past, and the error it raises. */
  ghost predicate FailsWith(loaded: seq<Storage.Loaded>, respond: Sidecar, error: string) {
    exists i :: 0 <= i < |loaded| && respond(loaded[i]) == Fails(error) && Completes(loaded[..i], respond)
  }

  lemma FailsHere(loaded: seq<Storage.Loaded>, respond: Sidecar, i: nat)
    requires i < |loaded| && respond(loaded[i]).Fails? && Completes(loaded[..i], respond)
    ensures FailsWith(loaded, respond, respond(loaded[i]).error)
  {
    hide Completes;
  }

  lemma FailsConcat(a: seq<Storage.Loaded>, b: seq<Storage.Loaded>, respond: Sidecar)
    ensures forall e :: FailsWith(a, respond, e) ==> FailsWith(a + b, respond, e)
    ensures forall e :: Completes(a, respond) && FailsWith(b, respond, e) ==> FailsWith(a + b, respond, e)
  {
    forall e | FailsWith(a, respond, e) ensures FailsWith(a + b, respond, e) {
      var i :| 0 <= i < |a| && respond(a[i]) == Fails(e) && Completes(a[..i], respond);
      assert (a + b)[..i] == a[..i] && (a + b)[i] == a[i];
    }
    forall e | Completes(a, respond) && FailsWith(b, respond, e) ensures FailsWith(a + b, respond, e) {
      var i :| 0 <= i < |b| && respond(b[i]) == Fails(e) && Completes(b[..i], respond);
      assert (a + b)[..|a| + i] == a + b[..i] && (a + b)[|a| + i] == b[i];
      CompletesConcat(a, b[..i], respond);
    }
  }

  ghost predicate FailsLike(a: seq<Storage.Loaded>, b: seq<Storage.Loaded>, respond: Sidecar) {
    forall e :: FailsWith(a, respond, e) ==> FailsWith(b, respond, e)
  }

  lemma FailsOn(a: seq<Storage.Loaded>, b: seq<Storage.Loaded>, all: seq<Storage.Loaded>, respond: Sidecar, raised: Option<string>)
    requires FailsLike(a + b, all, respond)
    ensures Completes(a, respond) ==> FailsLike(b, all, respond)
    ensures raised.Some? && FailsWith(a, respond, raised.value) ==> FailsWith(all, respond, raised.value)
  {
    FailsConcat(a, b, respond);
    hide FailsWith, Completes;
  }

  function Chunk(ids: seq<string>, offset: nat): seq<string>
    requires offset <= |ids|
  {
    if offset + VALIDATE_BATCH_SIZE <= |ids| then ids[offset..offset + VALIDATE_BATCH_SIZE] else ids[offset..]
  }

  /** What the run loads, chunk by chunk. */
  function LoadedFrom(ids: seq<string>, offset: nat, load: seq<string> -> seq<Storage.Loaded>): seq<Storage.Loaded>
    requires offset <= |ids|
    decreases |ids| - offset
  {
    if offset == |ids| then []
    else load(Chunk(ids, offset)) + LoadedFrom(ids, offset + |Chunk(ids, offset)|, load)
  }

  lemma {:induction false} OverConcat(p: Progress, a: seq<Storage.Loaded>, b: seq<Storage.Loaded>, respond: Sidecar)
    ensures Over(p, a + b, respond) == if Completes(a, respond) then Over(Over(p, a, respond), b, respond) else Over(p, a, respond)
    decreases a
  {
    if a == [] {
      assert a + b == b;
    } else {
      assert (a + b)[0] == a[0] && (a + b)[1..] == a[1..] + b;
      assert Completes(a, respond) <==> !respond(a[0]).Fails? && Completes(a[1..], respond) by {
        assert forall i :: 1 <= i < |a| ==> a[i] == a[1..][i - 1];
        assert forall i :: 0 <= i < |a[1..]| ==> a[1..][i] == a[i + 1];
      }
      if !respond(a[0]).Fails? {
        OverConcat(Step(p, a[0], respond(a[0])), a[1..], b, respond);
      }
    }
  }

  datatype RunResult = RunResult(
    rulesetHash: Option<string>, documents: seq<ValidatedDocument>, findings: seq<PersistedFinding>, parseErrors: nat)

  function ResultOf(p: Progress): RunResult {
    RunResult(p.rulesetHash, p.documents, p.findings, p.parseErrors)
  }

  /** `client_data.finding`, the parse errors in `client_data.master_data_defect`, and the run's status. */
  class ClientRegister {
    var findings: seq<StoredFinding>
    var defects: nat
    var reporting: bool

    constructor ()
      ensures findings == [] && defects == 0 && !reporting
    {
      findings, defects, reporting := [], 0, false;
    }

    ghost function Start(): Progress
      reads this
    {
      Progress(None, [], [], 0, findings, defects)
    }

    ghost function Now(hash: Option<string>, documents: seq<ValidatedDocument>, persisted: seq<PersistedFinding>, parseErrors: nat)
      : Progress
      reads this
    {
      Progress(hash, documents, persisted, parseErrors, findings, defects)
    }

    /** The inner loop: one chunk's documents, up to the first that raises. */
    method ValidateChunk(loaded: seq<Storage.Loaded>, respond: Sidecar, rulesetHash: Option<string>,
                         documents: seq<ValidatedDocument>, persisted: seq<PersistedFinding>, parseErrors: nat)
      returns (raised: Option<string>, hash: Option<string>, validated: seq<ValidatedDocument>, rows: seq<PersistedFinding>,
               malformed: nat)
      modifies this`findings, this`defects
      ensures Now(hash, validated, rows, malformed) == Over(old(Now(rulesetHash, documents, persisted, parseErrors)), loaded, respond)
      ensures raised.None? <==> Completes(loaded, respond)
      ensures raised.Some? ==> FailsWith(loaded, respond, raised.value)
    {
      hash, validated, rows, malformed := rulesetHash, documents, persisted, parseErrors;
      NothingYet(Now(hash, validated, rows, malformed), respond);
      hide Over, Completes, Rows, StoredRows, DocumentOf;
      assert loaded[..0] == [] && loaded[..|loaded|] == loaded;
      for i := 0 to |loaded|
        invariant Completes(loaded[..i], respond)
        invariant Now(hash, validated, rows, malformed)
                  == Over(old(Now(rulesetHash, documents, persisted, parseErrors)), loaded[..i], respond)
      {
        NextDocument(old(Now(rulesetHash, documents, persisted, parseErrors)), loaded, i, respond);
        match respond(loaded[i]) {
          case Fails(error) =>
            FailsHere(loaded, respond, i);
            return Some(error), hash, validated, rows, malformed;
          case Malformed =>
            malformed := malformed + 1;
            defects := defects + 1;
          case Response(newHash, _, _) =>
            hash := Some(newHash);
            validated := validated + [DocumentOf(loaded[i])];
            rows := rows + Rows(loaded[i].docHash, respond(loaded[i]));
            findings := findings + StoredRows(loaded[i], respond(loaded[i]));
        }
      }
      return None, hash, validated, rows, malformed;
    }

    /**
     * Each answered document's rows are committed on their own, so an exception leaves the rows of the
     * documents before it.
     */
    method RunValidation(ids: seq<string>, load: seq<string> -> seq<Storage.Loaded>, respond: Sidecar)
      returns (r: Result<RunResult, string>)
      modifies this
      ensures var loaded := LoadedFrom(ids, 0, load); var p := Over(old(Start()), loaded, respond);
              && findings == p.stored && defects == p.defects
              && (Completes(loaded, respond) ==> r == Ok(ResultOf(p)) && reporting)
              && (!Completes(loaded, respond) ==> r.Err? && FailsWith(loaded, respond, r.error) && reporting == old(reporting))
    {
      var rulesetHash: Option<string> := None;
      var documents: seq<ValidatedDocument> := [];
      var persisted: seq<PersistedFinding> := [];
      var parseErrors := 0;
      var offset := 0;
      while offset < |ids|
        invariant 0 <= offset <= |ids| && reporting == old(reporting)
        invariant Over(old(Start()), LoadedFrom(ids, 0, load), respond)
                  == Over(Now(rulesetHash, documents, persisted, parseErrors), LoadedFrom(ids, offset, load), respond)
        invariant Completes(LoadedFrom(ids, 0, load), respond) <==> Completes(LoadedFrom(ids, offset, load), respond)
        invariant FailsLike(LoadedFrom(ids, offset, load), LoadedFrom(ids, 0, load), respond)
        decreases |ids| - offset
      {
        var chunk := Chunk(ids, offset);
        LoadedStep(ids, offset, load);
        hide LoadedFrom, Over, Completes, Chunk, FailsWith, FailsLike;
        var loaded := load(chunk);
        OverConcat(Now(rulesetHash, documents, persisted, parseErrors), loaded, LoadedFrom(ids, offset + |chunk|, load), respond);
        CompletesConcat(loaded, LoadedFrom(ids, offset + |chunk|, load), respond);
        var raised;
        raised, rulesetHash, documents, persisted, parseErrors :=
          ValidateChunk(loaded, respond, rulesetHash, documents, persisted, parseErrors);
        FailsOn(loaded, LoadedFrom(ids, offset + |chunk|, load), LoadedFrom(ids, 0, load), respond, raised);
        if raised.Some? {
          return Err(raised.value);
        }
        offset := offset + |chunk|;
      }
      reporting := true;
      return Ok(RunResult(rulesetHash, documents, persisted, parseErrors));
    }
  }

  lemma CompletesConcat(a: seq<Storage.Loaded>, b: seq<Storage.Loaded>, respond: Sidecar)
    ensures Completes(a + b, respond) <==> Completes(a, respond) && Completes(b, respond)
  {
    assert forall i :: 0 <= i < |a| ==> (a + b)[i] == a[i];
    assert forall i :: 0 <= i < |b| ==> (a + b)[|a| + i] == b[i];
  }

  lemma NothingYet(p: Progress, respond: Sidecar)
    ensures Over(p, [], respond) == p && Completes([], respond)
  {
  }

  lemma LoadedStep(ids: seq<string>, offset: nat, load: seq<string> -> seq<Storage.Loaded>)
    requires offset < |ids|
    ensures 0 < |Chunk(ids, offset)| <= |ids| - offset
    ensures LoadedFrom(ids, offset, load) == load(Chunk(ids, offset)) + LoadedFrom(ids, offset + |Chunk(ids, offset)|, load)
  {
  }

  lemma OverOne(p: Progress, seen: seq<Storage.Loaded>, l: Storage.Loaded, respond: Sidecar)
    requires Completes(seen, respond)
    ensures Completes(seen + [l], respond) <==> !respond(l).Fails?
    ensures Over(p, seen + [l], respond)
            == if respond(l).Fails? then Over(p, seen, respond) else Step(Over(p, seen, respond), l, respond(l))
  {
    OverConcat(p, seen, [l], respond);
    assert (seen + [l])[|seen|] == l;
    var q := Over(p, seen, respond);
    if !respond(l).Fails? {
      assert [l][1..] == [];
      assert Over(Step(q, l, respond(l)), [], respond) == Step(q, l, respond(l));
    }
    hide Step;
  }

  /** The next document: its step is taken, or the run stops there. */
  lemma NextDocument(p: Progress, loaded: seq<Storage.Loaded>, i: nat, respond: Sidecar)
    requires i < |loaded| && Completes(loaded[..i], respond)
    ensures respond(loaded[i]).Fails? ==>
              !Completes(loaded, respond) && Over(p, loaded, respond) == Over(p, loaded[..i], respond)
    ensures !respond(loaded[i]).Fails? ==>
              Completes(loaded[..i + 1], respond)
              && Over(p, loaded[..i + 1], respond) == Step(Over(p, loaded[..i], respond), loaded[i], respond(loaded[i]))
  {
    OverOne(p, loaded[..i], loaded[i], respond);
    assert loaded[..i + 1] == loaded[..i] + [loaded[i]];
    if respond(loaded[i]).Fails? {
      hide Over, Step;
      assert loaded == loaded[..i + 1] + loaded[i + 1..];
      OverConcat(p, loaded[..i + 1], loaded[i + 1..], respond);
    }
  }

  // ---------- What the run hands on ----------

  ghost predicate Listed(documents: seq<ValidatedDocument>, docHash: string) {
    exists i :: 0 <= i < |documents| && documents[i].docHash == docHash
  }

  /** Rows belong to listed documents, are stored as they are handed on, and nothing is lost or made up. */
  ghost predicate Sound(p: Progress, start: Progress, n: nat) {
    && |p.documents| + p.parseErrors == n
    && p.defects == start.defects + p.parseErrors
    && (p.rulesetHash.None? <==> p.documents == [])
    && (forall i :: 0 <= i < |p.findings| ==> Listed(p.documents, p.findings[i].docHash))
    && |p.stored| == |start.stored| + |p.findings| && start.stored <= p.stored
    && (forall i :: 0 <= i < |p.findings| ==> p.stored[|start.stored| + i].row == p.findings[i])
  }

  lemma StepIsSound(p: Progress, start: Progress, n: nat, l: Storage.Loaded, reply: Reply)
    requires Sound(p, start, n) && !reply.Fails?
    ensures Sound(Step(p, l, reply), start, n + 1)
  {
    if reply.Response? {
      var q := Step(p, l, reply);
      var rows := Rows(l.docHash, reply);
      assert q.documents[|p.documents|].docHash == l.docHash;
      forall i | 0 <= i < |q.findings| ensures Listed(q.documents, q.findings[i].docHash) {
        if i < |p.findings| {
          assert Listed(p.documents, p.findings[i].docHash);
          var k :| 0 <= k < |p.documents| && p.documents[k].docHash == p.findings[i].docHash;
          assert q.documents[k] == p.documents[k];
        } else {
          assert q.findings[i] == rows[i - |p.findings|];
        }
      }
    }
  }

  lemma {:induction false} RunIsSound(p: Progress, start: Progress, n: nat, loaded: seq<Storage.Loaded>, respond: Sidecar)
    requires Sound(p, start, n) && Completes(loaded, respond)
    ensures Sound(Over(p, loaded, respond), start, n + |loaded|)
    decreases loaded
  {
    if loaded != [] {
      StepIsSound(p, start, n, loaded[0], respond(loaded[0]));
      hide Sound, Step;
      RunIsSound(Step(p, loaded[0], respond(loaded[0])), start, n + 1, loaded[1..], respond);
    }
  }

  /**
   * A run that completes accounts for every loaded document, as validated or as a parse error; has a
   * ruleset hash exactly when some document was validated; and hands on exactly the rows it stored, each
   * for a document it lists.
   */
  lemma CompletedRunIsSound(register: Progress, loaded: seq<Storage.Loaded>, respond: Sidecar)
    requires Completes(loaded, respond) && register == Progress(None, [], [], 0, register.stored, register.defects)
    ensures Sound(Over(register, loaded, respond), register, |loaded|)
  {
    RunIsSound(register, register, 0, loaded, respond);
  }

  /** Rows of one answer: `warn` exactly for warnings, `fail` for the rest, `pass` only for an empty list. */
  lemma RowOutcomes(docHash: string, reply: Reply)
    requires reply.Response? && reply.outcome == ComputeOutcome(reply.findings)
    ensures reply.findings == [] ==> Rows(docHash, reply) == [PassRow(docHash)]
    ensures reply.findings != [] ==>
              && |Rows(docHash, reply)| == |reply.findings|
              && forall i :: 0 <= i < |reply.findings| ==>
                   Rows(docHash, reply)[i].outcome == if reply.findings[i].severity == Severity.Warning then Warn else Fail
  {
    if reply.findings != [] {
      forall i | 0 <= i < |reply.findings|
        ensures Rows(docHash, reply)[i].outcome == if reply.findings[i].severity == Severity.Warning then Warn else Fail
      {
        assert reply.findings[i].severity == Severity.Warning || IsFailing(reply.findings[i]);
      }
    }
  }

  // ---------- Chunks ----------

  function Chunks(ids: seq<string>, offset: nat): seq<seq<string>>
    requires offset <= |ids|
    decreases |ids| - offset
  {
    if offset == |ids| then [] else [Chunk(ids, offset)] + Chunks(ids, offset + |Chunk(ids, offset)|)
  }

  function Flatten(chunks: seq<seq<string>>): seq<string> {
    if chunks == [] then [] else chunks[0] + Flatten(chunks[1..])
  }

  /** The chunks are the ids in order, none dropped or repeated, at most fifty at a time. */
  lemma {:induction false} ChunksCover(ids: seq<string>, offset: nat)
    requires offset <= |ids|
    ensures Flatten(Chunks(ids, offset)) == ids[offset..]
    ensures forall i :: 0 <= i < |Chunks(ids, offset)| ==> 0 < |Chunks(ids, offset)[i]| <= VALIDATE_BATCH_SIZE
    decreases |ids| - offset
  {
    if offset < |ids| {
      var chunk := Chunk(ids, offset);
      ChunksCover(ids, offset + |chunk|);
      assert ids[offset..] == chunk + ids[offset + |chunk|..];
    }
  }

  // ---------- Handing the rows to the corpus ----------

  function OutcomeText(o: Outcome): string {
    match o case Pass => "pass" case Warn => "warn" case Fail => "fail"
  }

  function CorpusFinding(row: PersistedFinding): Corpus.FindingInput {
    Corpus.FindingInput(row.docHash, "post_map", OutcomeText(row.outcome), row.ruleId, row.businessTerm, row.xpath,
                        row.failureClass, row.valueShape, row.message, None)
  }

  function CorpusDocument(d: ValidatedDocument, typeText: DocType -> string, scenarioText: Scenario -> string): Corpus.DocumentInput {
    Corpus.DocumentInput(d.docHash, typeText(d.docType), scenarioText(d.scenario), d.currency, d.lineCount,
                         d.hasAllowanceCharge, d.hasMultiTaxRate, None)
  }

  /** The run's documents and findings as `recordCorpus` receives them, the rest of the input given. */
  function CorpusInput(rest: Corpus.RecordInput, r: RunResult, typeText: DocType -> string, scenarioText: Scenario -> string)
    : (input: Corpus.RecordInput)
    ensures |input.documents| == |r.documents| && |input.findings| == |r.findings|
    ensures forall i :: 0 <= i < |r.documents| ==> input.documents[i] == CorpusDocument(r.documents[i], typeText, scenarioText)
    ensures forall i :: 0 <= i < |r.findings| ==> input.findings[i] == CorpusFinding(r.findings[i])
  {
    rest.(documents := seq(|r.documents|, i requires 0 <= i < |r.documents| => CorpusDocument(r.documents[i], typeText, scenarioText)),
          findings := seq(|r.findings|, i requires 0 <= i < |r.findings| => CorpusFinding(r.findings[i])))
  }

  /** `recordCorpus` never refuses a completed run for a document it does not list. */
  lemma CorpusKnowsEveryDocument(register: Progress, loaded: seq<Storage.Loaded>, respond: Sidecar, rest: Corpus.RecordInput,
                                 typeText: DocType -> string, scenarioText: Scenario -> string,
                                 t: Corpus.Tables, sc: Corpus.Scanner, now: int)
    requires Completes(loaded, respond) && register == Progress(None, [], [], 0, register.stored, register.defects)
    ensures var input := CorpusInput(rest, ResultOf(Over(register, loaded, respond)), typeText, scenarioText);
            Corpus.Record(t, sc, input, now) != Err(Corpus.UnknownDocument)
  {
    CompletedRunIsSound(register, loaded, respond);
    var input := CorpusInput(rest, ResultOf(Over(register, loaded, respond)), typeText, scenarioText);
    InputListsItsDocuments(Over(register, loaded, respond), register, |loaded|, rest, typeText, scenarioText);
    hide Over, CorpusInput, Sound, ResultOf, Corpus.DocumentHashes, Corpus.Record;
    Corpus.KnownDocumentsDoNotThrow(t, sc, input, now);
  }

  lemma InputListsItsDocuments(p: Progress, start: Progress, n: nat, rest: Corpus.RecordInput,
                               typeText: DocType -> string, scenarioText: Scenario -> string)
    requires Sound(p, start, n)
    ensures var input := CorpusInput(rest, ResultOf(p), typeText, scenarioText);
            forall i :: 0 <= i < |input.findings| ==> input.findings[i].docHash in Corpus.DocumentHashes(input.documents)
  {
    var input := CorpusInput(rest, ResultOf(p), typeText, scenarioText);
    forall i | 0 <= i < |input.findings| ensures input.findings[i].docHash in Corpus.DocumentHashes(input.documents) {
      assert Listed(p.documents, p.findings[i].docHash);
      var k :| 0 <= k < |p.documents| && p.documents[k].docHash == p.findings[i].docHash;
      assert input.documents[k].docHash == input.findings[i].docHash;
    }
  }

  // ---------- The retry after a 504 ----------

  /** `run_validation` for one document and the flag. */
  function Serve(d: Document, patterns: seq<CompiledPattern>, hash: string, stop: bool): Reply {
    match Resolve(PatternVerdicts(d, patterns), true, stop)
    case Err(_) => Fails("validation failed")
    case Ok(fs) => Response(hash, ComputeOutcome(fs), fs)
  }

  /** `validateDocument`: once in full, and when that takes too long once more stopping at the first error. */
  function ValidateDocument(d: Document, patterns: seq<CompiledPattern>, hash: string, timesOut: bool): Reply {
    Serve(d, patterns, hash, timesOut)
  }

  /** Whether or not the first request timed out, the document's outcome is the same; the findings may be cut. */
  lemma TimeoutKeepsOutcome(d: Document, patterns: seq<CompiledPattern>, hash: string)
    requires ValidateDocument(d, patterns, hash, false).Response?
    ensures var full, retried := ValidateDocument(d, patterns, hash, false), ValidateDocument(d, patterns, hash, true);
            && retried.Response? && retried.outcome == full.outcome
            && retried.findings == CutAfterFirstError(full.findings)
            && (full.outcome != Fail ==> retried == full)
  {
    RetryKeepsOutcome(d, patterns, true);
    var full := Resolve(PatternVerdicts(d, patterns), true, false).value;
    hide Resolve, PatternVerdicts;
    if ComputeOutcome(full) != Fail {
      NothingToCut(full);
    }
  }

  lemma {:induction false} NothingToCut(fs: seq<Finding>)
    requires ComputeOutcome(fs) != Fail
    ensures CutAfterFirstError(fs) == fs
  {
    if fs != [] {
      OutcomeStep(fs);
      NothingToCut(fs[1..]);
    }
  }

  // ---------- From the written documents to the run ----------

  /** Each chunk is loaded from the rows the database returns for its ids, in whatever order it returns them. */
  ghost predicate LoadsFrom(load: seq<string> -> seq<Storage.Loaded>, t: Storage.Tables, tenantId: string) {
    forall ids :: ChunkLoads(load(ids), t, tenantId, Asked(ids))
  }

  function Asked(ids: seq<string>): set<string> {
    set id | id in ids
  }

  ghost predicate ChunkLoads(loaded: seq<Storage.Loaded>, t: Storage.Tables, tenantId: string, asked: set<string>) {
    exists rows, lineRows :: Storage.Returned(t, tenantId, asked, rows, lineRows) && loaded == Storage.Rebuild(rows, lineRows)
  }

  lemma {:induction false} LoadedForConcat(a: seq<Storage.Loaded>, b: seq<Storage.Loaded>, id: string)
    ensures Storage.LoadedFor(a + b, id) == Storage.LoadedFor(a, id) + Storage.LoadedFor(b, id)
  {
    if a == [] {
      assert a + b == b;
    } else {
      assert (a + b)[1..] == a[1..] + b;
      LoadedForConcat(a[1..], b, id);
    }
  }

  lemma {:induction false} NoneFor(loaded: seq<Storage.Loaded>, id: string)
    requires forall i :: 0 <= i < |loaded| ==> loaded[i].invoiceId != id
    ensures Storage.LoadedFor(loaded, id) == []
  {
    if loaded != [] {
      NoneFor(loaded[1..], id);
    }
  }

  /** A chunk that does not ask for a document does not load it. */
  lemma NotAsked(loaded: seq<Storage.Loaded>, t: Storage.Tables, tenantId: string, asked: set<string>, id: string)
    requires ChunkLoads(loaded, t, tenantId, asked) && id !in asked
    ensures Storage.LoadedFor(loaded, id) == []
  {
    var rows, lineRows :| Storage.Returned(t, tenantId, asked, rows, lineRows) && loaded == Storage.Rebuild(rows, lineRows);
    forall i | 0 <= i < |loaded| ensures loaded[i].invoiceId != id {
      assert rows[i] in multiset(rows);
      Storage.SelectInvoicesCount(t.invoices, tenantId, asked, rows[i]);
    }
    NoneFor(loaded, id);
  }

  ghost predicate Distinct(ids: seq<string>) {
    forall i, j :: 0 <= i < j < |ids| ==> ids[i] != ids[j]
  }

  ghost predicate ComesBackAlways(t: Storage.Tables, c: Storage.Columns, tenantId: string, doc: CanonicalDoc, stored: CanonicalDoc, id: string) {
    forall asked: set<string> :: id in asked ==> Storage.ComesBack(t, c, tenantId, doc, stored, id, asked)
  }

  predicate StillIn(ids: seq<string>, offset: nat, id: string)
    requires offset <= |ids|
  {
    id in ids[offset..]
  }

  /** What a run from an offset on loads for an id. */
  function LoadedLater(ids: seq<string>, offset: nat, load: seq<string> -> seq<Storage.Loaded>, id: string): seq<Storage.Loaded>
    requires offset <= |ids|
  {
    Storage.LoadedFor(LoadedFrom(ids, offset, load), id)
  }

  lemma LoadedLaterStep(ids: seq<string>, offset: nat, load: seq<string> -> seq<Storage.Loaded>, id: string)
    requires offset < |ids|
    ensures var chunk := Chunk(ids, offset);
            && 0 < |chunk| <= |ids| - offset
            && LoadedLater(ids, offset, load, id) == Storage.LoadedFor(load(chunk), id) + LoadedLater(ids, offset + |chunk|, load, id)
  {
    hide LoadedFrom, Chunk, Storage.LoadedFor;
    LoadedStep(ids, offset, load);
    var chunk := Chunk(ids, offset);
    LoadedForConcat(load(chunk), LoadedFrom(ids, offset + |chunk|, load), id);
  }

  lemma NothingLater(ids: seq<string>, load: seq<string> -> seq<Storage.Loaded>, id: string)
    ensures LoadedLater(ids, |ids|, load, id) == [] && !StillIn(ids, |ids|, id)
  {
  }

  lemma ChunkIsLoaded(load: seq<string> -> seq<Storage.Loaded>, t: Storage.Tables, tenantId: string, chunk: seq<string>, id: string)
    requires LoadsFrom(load, t, tenantId)
    ensures ChunkLoads(load(chunk), t, tenantId, Asked(chunk)) && (id in chunk <==> id in Asked(chunk))
  {
    hide ChunkLoads;
  }

  lemma {:induction false} LoadedOnceFrom(t: Storage.Tables, c: Storage.Columns, tenantId: string, doc: CanonicalDoc, stored: CanonicalDoc,
                                          id: string, ids: seq<string>, offset: nat, load: seq<string> -> seq<Storage.Loaded>)
    requires offset <= |ids| && LoadsFrom(load, t, tenantId) && ComesBackAlways(t, c, tenantId, doc, stored, id)
    requires Distinct(ids)
    ensures LoadedLater(ids, offset, load, id) == if StillIn(ids, offset, id) then [Storage.Loaded(id, c.hash(doc), stored)] else []
    decreases |ids| - offset
  {
    hide ComesBackAlways, ChunkLoads, Distinct, StillIn, LoadedLater, LoadsFrom;
    if offset == |ids| {
      NothingLater(ids, load, id);
    } else {
      var chunk := Chunk(ids, offset);
      var asked := Asked(chunk);
      hide Chunk, Asked, Storage.LoadedFor;
      ChunkIsLoaded(load, t, tenantId, chunk, id);
      LoadedLaterStep(ids, offset, load, id);
      ChunkSplits(ids, offset, id);
      LoadedOnceFrom(t, c, tenantId, doc, stored, id, ids, offset + |chunk|, load);
      if id in chunk {
        ChunkGives(load(chunk), t, c, tenantId, doc, stored, id, asked);
      } else {
        NotAsked(load(chunk), t, tenantId, asked, id);
      }
    }
  }

  /** An id is in the chunk, further on, or in neither; never in both. */
  lemma ChunkSplits(ids: seq<string>, offset: nat, id: string)
    requires offset < |ids| && Distinct(ids)
    ensures var chunk := Chunk(ids, offset);
            && |chunk| <= |ids| - offset
            && (StillIn(ids, offset, id) <==> id in chunk || StillIn(ids, offset + |chunk|, id))
            && !(id in chunk && StillIn(ids, offset + |chunk|, id))
  {
    var chunk := Chunk(ids, offset);
    var later := ids[offset + |chunk|..];
    assert ids[offset..] == chunk + later;
    assert forall i :: 0 <= i < |chunk| ==> chunk[i] == ids[offset + i];
    assert forall j :: 0 <= j < |later| ==> later[j] == ids[offset + |chunk| + j];
  }

  lemma ChunkGives(loaded: seq<Storage.Loaded>, t: Storage.Tables, c: Storage.Columns, tenantId: string, doc: CanonicalDoc,
                   stored: CanonicalDoc, id: string, asked: set<string>)
    requires ChunkLoads(loaded, t, tenantId, asked) && id in asked && ComesBackAlways(t, c, tenantId, doc, stored, id)
    ensures Storage.LoadedFor(loaded, id) == [Storage.Loaded(id, c.hash(doc), stored)]
  {
    hide Storage.Returned, Storage.Rebuild, Storage.LoadedFor;
    assert Storage.ComesBack(t, c, tenantId, doc, stored, id, asked);
  }

  /**
   * A run over the documents just written loads each of them exactly once, as it was stored, whatever the chunks
   * and whatever order the rows come back in, when its line numbers say what its order is.
   */
  lemma WrittenDocumentsAreLoadedOnce(t: Storage.Tables, c: Storage.Columns, tenantId: string, runId: string, docs: seq<CanonicalDoc>,
                                      ids: seq<string>, k: nat, load: seq<string> -> seq<Storage.Loaded>)
    requires |ids| == |docs| && k < |docs| && Storage.Fresh(t, ids) && Storage.Write(t, c, tenantId, runId, docs, ids).Some?
    requires Distinct(ids)
    requires LoadsFrom(load, Storage.Write(t, c, tenantId, runId, docs, ids).value, tenantId)
    requires Storage.StoredDoc(c, docs[k], ids[k]).Some? ==>
               Storage.Ordered(docs[k].lines) && Storage.Unambiguous(Storage.StoredDoc(c, docs[k], ids[k]).value.lines)
    ensures var stored := Storage.StoredDoc(c, docs[k], ids[k]);
            stored.Some? && LoadedLater(ids, 0, load, ids[k]) == [Storage.Loaded(ids[k], c.hash(docs[k]), stored.value)]
  {
    hide Storage.Write, Storage.Fresh, Storage.StoredDoc, Storage.Ordered, Storage.Unambiguous, Storage.ComesBack, Storage.LoadedFor;
    Storage.WrittenDocumentsComeBack(t, c, tenantId, runId, docs, ids, k, {ids[k]});
    var t' := Storage.Write(t, c, tenantId, runId, docs, ids).value;
    var stored := Storage.StoredDoc(c, docs[k], ids[k]).value;
    forall asked: set<string> | ids[k] in asked ensures Storage.ComesBack(t', c, tenantId, docs[k], stored, ids[k], asked) {
      Storage.WrittenDocumentsComeBack(t, c, tenantId, runId, docs, ids, k, asked);
    }
    assert ids[0..] == ids;
    LoadedOnceFrom(t', c, tenantId, docs[k], stored, ids[k], ids, 0, load);
  }

  // ---------- From the compiled rules to the corpus ----------

  /** What the sidecar answers one document with: the patterns compiled from the files of a live profile. */
  datatype Serving = Serving(
    profile: SeedPlan.RegistryEntry, sorted: seq<string>, rules: seq<SeedPlan.EngineRule>, patterns: seq<CompiledPattern>,
    hash: string, document: Document, timesOut: bool)

  /** The patterns hold the compiled rules: every rule of a pattern carries the id of one of them. */
  ghost predicate HoldRules(patterns: seq<CompiledPattern>, rules: seq<SeedPlan.EngineRule>) {
    forall p, c, rule :: p in patterns && c in p && rule in c.rules ==> exists r :: r in rules && r.ruleId == rule.ruleId
  }

  /** In the files, the last attribute of local name id is as good as the unprefixed one. */
  ghost predicate IdsReadAlike(lib: SeedPlan.Library, sorted: seq<string>) {
    forall path, e :: path in sorted && e in SeedPlan.Assertions([lib.parse(path)]) && SeedPlan.IsAssertion(e) ==>
      SeedPlan.LastLocal(e.attrs, "id") == SeedPlan.Get(e.attrs, "", "id")
  }

  ghost predicate Serves(s: Serving, entries: seq<SeedPlan.RegistryEntry>, lib: SeedPlan.Library, engine: SeedPlan.Engine) {
    && s.profile in entries && s.profile.unavailable.None?
    && (forall path :: path in s.sorted ==> path in s.profile.schematron) && IdsReadAlike(lib, s.sorted)
    && SeedPlan.CompileRuleset(engine, lib, s.sorted) == Ok(s.rules) && HoldRules(s.patterns, s.rules)
  }

  /** A finding the sidecar reports names a planned rule. */
  lemma FindingIsPlanned(s: Serving, entries: seq<SeedPlan.RegistryEntry>, lib: SeedPlan.Library, engine: SeedPlan.Engine, f: Finding)
    requires SeedPlan.Sorts(lib) && SeedPlan.Planned(entries, lib).Ok? && Serves(s, entries, lib, engine)
    requires var reply := ValidateDocument(s.document, s.patterns, s.hash, s.timesOut); reply.Response? && f in reply.findings
    ensures SeedPlan.LastIdPlanned(entries, lib, f.ruleId)
  {
    hide Resolve, PatternVerdicts;
    var p, c, rule := FindingsNameCompiledRules(s.document, s.patterns, true, s.timesOut, f);
    var r :| r in s.rules && r.ruleId == rule.ruleId;
    hide SeedPlan.Planned, SeedPlan.CompileRuleset, SeedPlan.LastIdPlanned, SeedPlan.Sorts, SeedPlan.Assertions, SeedPlan.PlannedOnce, SeedPlan.Compile;
    var path, e := SeedPlan.EveryEngineRuleIsPlannedOnce(entries, lib, engine, s.profile, s.sorted, r);
  }

  /** A row handed on that names a rule has it from a finding of an answer. */
  lemma {:induction false} RowsNameFindings(p: Progress, loaded: seq<Storage.Loaded>, respond: Sidecar, row: PersistedFinding)
    returns (l: Storage.Loaded, f: Finding)
    requires Completes(loaded, respond) && row in Over(p, loaded, respond).findings && row !in p.findings && row.ruleId.Some?
    ensures l in loaded && respond(l).Response? && f in respond(l).findings && row.ruleId == Some(f.ruleId)
    decreases loaded
  {
    l := loaded[0];
    var reply := respond(l);
    if reply.Response? && row in Rows(l.docHash, reply) {
      var i :| 0 <= i < |Rows(l.docHash, reply)| && Rows(l.docHash, reply)[i] == row;
      f := reply.findings[i];
    } else {
      assert forall k :: 0 <= k < |loaded[1..]| ==> loaded[1..][k] == loaded[k + 1];
      hide Rows, StoredRows, DocumentOf;
      l, f := RowsNameFindings(Step(p, l, reply), loaded[1..], respond, row);
    }
  }

  /**
   * From the catalogue to the corpus: once it is seeded, and whatever calls came in between, `recordCorpus` never
   * refuses the findings of a completed run for a rule or a document it does not know.
   */
  lemma SeededValidationIsAccepted(
    register: Progress, loaded: seq<Storage.Loaded>, respond: Sidecar, serving: Storage.Loaded -> Serving,
    rest: Corpus.RecordInput, typeText: DocType -> string, scenarioText: Scenario -> string,
    t: Corpus.Tables, entries: seq<SeedPlan.RegistryEntry>, lib: SeedPlan.Library, engine: SeedPlan.Engine, from: int,
    calls: seq<Corpus.Call>, sc: Corpus.Scanner, now: int)
    requires Completes(loaded, respond) && register == Progress(None, [], [], 0, register.stored, register.defects)
    requires Corpus.Integrity(t) && SeedPlan.Sorts(lib) && SeedPlan.Planned(entries, lib).Ok?
    requires forall i :: 0 <= i < |calls| ==> Corpus.Callable(calls[i])
    requires forall l :: l in loaded && respond(l).Response? ==>
               var s := serving(l);
               Serves(s, entries, lib, engine) && respond(l) == ValidateDocument(s.document, s.patterns, s.hash, s.timesOut)
    ensures var later := Corpus.AfterCalls(t, [Corpus.ApplyCall(entries, lib, from)] + calls);
            var input := CorpusInput(rest, ResultOf(Over(register, loaded, respond)), typeText, scenarioText);
            && Corpus.Record(later, sc, input, now) != Err(Corpus.SpecCatalogueIncomplete)
            && Corpus.Record(later, sc, input, now) != Err(Corpus.UnknownDocument)
  {
    var later := Corpus.AfterCalls(t, [Corpus.ApplyCall(entries, lib, from)] + calls);
    var end := Over(register, loaded, respond);
    var input := CorpusInput(rest, ResultOf(end), typeText, scenarioText);
    hide Corpus.AfterCalls, Corpus.Record, Corpus.Integrity, Corpus.Callable, SeedPlan.Planned, SeedPlan.Sorts, SeedPlan.LastIdPlanned,
         ValidateDocument, Serves, Over;
    CorpusKnowsEveryDocument(register, loaded, respond, rest, typeText, scenarioText, later, sc, now);
    forall i | 0 <= i < |input.findings| && input.findings[i].ruleId.Some?
      ensures SeedPlan.LastIdPlanned(entries, lib, input.findings[i].ruleId.value)
    {
      var l, f := RowsNameFindings(register, loaded, respond, end.findings[i]);
      FindingIsPlanned(serving(l), entries, lib, engine, f);
    }
    hide Completes;
    Corpus.SeededRunsAreAccepted(t, entries, lib, from, calls, sc, input, now);
  }

  // ---------- What the rows say ----------

  /** Column by column, the row of a finding of this document's answer. */
  ghost predicate RowSays(row: PersistedFinding, docHash: string, f: Finding, outcome: Outcome) {
    && row.docHash == docHash && row.ruleId == Some(f.ruleId) && row.businessTerm == f.businessTerm && row.xpath == Some(f.xpath)
    && row.failureClass == f.failureClass && row.valueShape == Some(f.valueShape) && row.message == Some(f.message)
    && (f.severity == Severity.Warning ==> row.outcome == Warn) && (f.severity != Severity.Warning ==> row.outcome == outcome)
  }

  /** The row of a document without findings. */
  ghost predicate PassSays(row: PersistedFinding, docHash: string) {
    && row.docHash == docHash && row.outcome == Pass && row.ruleId == None && row.businessTerm == None && row.xpath == None
    && row.failureClass == None && row.valueShape == None && row.message == None
  }

  /** How many rows an answer gives. */
  function RowCount(reply: Reply): nat {
    if !reply.Response? then 0 else if reply.findings == [] then 1 else |reply.findings|
  }

  function RowsBefore(loaded: seq<Storage.Loaded>, respond: Sidecar, k: nat): nat
    requires k <= |loaded|
    decreases k
  {
    if k == 0 then 0 else RowsBefore(loaded, respond, k - 1) + RowCount(respond(loaded[k - 1]))
  }

  function DocumentsBefore(loaded: seq<Storage.Loaded>, respond: Sidecar, k: nat): nat
    requires k <= |loaded|
    decreases k
  {
    if k == 0 then 0 else DocumentsBefore(loaded, respond, k - 1) + if respond(loaded[k - 1]).Response? then 1 else 0
  }

  /** The j-th row of the k-th loaded document: the one stored and the one handed on. */
  ghost predicate SaysFinding(stored: StoredFinding, row: PersistedFinding, l: Storage.Loaded, reply: Reply, j: nat)
    requires reply.Response? && j < RowCount(reply)
  {
    && stored.invoiceId == l.invoiceId && stored.rulesetHash == reply.rulesetHash && stored.row == row
    && if reply.findings == [] then PassSays(row, l.docHash) else RowSays(row, l.docHash, reply.findings[j], reply.outcome)
  }

  lemma AnswerSays(l: Storage.Loaded, reply: Reply, j: nat)
    requires reply.Response? && j < RowCount(reply)
    ensures |Rows(l.docHash, reply)| == RowCount(reply) && |StoredRows(l, reply)| == RowCount(reply)
    ensures SaysFinding(StoredRows(l, reply)[j], Rows(l.docHash, reply)[j], l, reply, j)
  {
  }

  lemma AnswerCounts(l: Storage.Loaded, reply: Reply)
    requires reply.Response?
    ensures |Rows(l.docHash, reply)| == RowCount(reply) && |StoredRows(l, reply)| == RowCount(reply)
  {
  }

  /** Where the rows and documents of a run stand so far. */
  ghost predicate Placed(start: Progress, p: Progress, loaded: seq<Storage.Loaded>, respond: Sidecar, k: nat) {
    && k <= |loaded|
    && |p.stored| == |start.stored| + RowsBefore(loaded, respond, k) && start.stored <= p.stored
    && |p.findings| == |start.findings| + RowsBefore(loaded, respond, k) && start.findings <= p.findings
    && |p.documents| == |start.documents| + DocumentsBefore(loaded, respond, k) && start.documents <= p.documents
  }

  lemma {:induction false} RunPlaces(start: Progress, loaded: seq<Storage.Loaded>, respond: Sidecar, k: nat)
    requires Completes(loaded, respond) && k <= |loaded|
    ensures Completes(loaded[..k], respond) && Placed(start, Over(start, loaded[..k], respond), loaded, respond, k)
    decreases k
  {
    if k == 0 {
      NothingYet(start, respond);
      assert loaded[..0] == [];
    } else {
      RunPlaces(start, loaded, respond, k - 1);
      NextDocument(start, loaded, k - 1, respond);
      if respond(loaded[k - 1]).Response? {
        AnswerCounts(loaded[k - 1], respond(loaded[k - 1]));
      }
      hide Over, Rows, StoredRows, RowCount, DocumentOf;
    }
  }

  /** What a run goes on to does not change what it has. */
  lemma {:induction false} RunKeeps(p: Progress, loaded: seq<Storage.Loaded>, respond: Sidecar)
    ensures var q := Over(p, loaded, respond);
            p.stored <= q.stored && p.findings <= q.findings && p.documents <= q.documents
    decreases loaded
  {
    if loaded != [] && !respond(loaded[0]).Fails? {
      hide Rows, StoredRows, DocumentOf;
      RunKeeps(Step(p, loaded[0], respond(loaded[0])), loaded[1..], respond);
    }
  }

  ghost predicate DocumentSays(d: ValidatedDocument, l: Storage.Loaded) {
    var h := l.doc.header;
    && d.docHash == l.docHash && d.docType == h.docType && d.scenario == h.scenario && d.currency == h.currency
    && d.lineCount == |l.doc.lines| && d.hasAllowanceCharge == h.hasAllowanceCharge && d.hasMultiTaxRate == h.hasMultiTaxRate
  }

  /**
   * In a completed run, the rows stored and handed on are, in order, one for each finding of each answer and one for an
   * answer without findings, and say column by column what that finding says; and the documents are those answered.
   */
  lemma RowsSayTheirFindings(start: Progress, loaded: seq<Storage.Loaded>, respond: Sidecar, k: nat, j: nat)
    requires Completes(loaded, respond) && k < |loaded| && respond(loaded[k]).Response? && j < RowCount(respond(loaded[k]))
    ensures var p := Over(start, loaded, respond); var at, n := RowsBefore(loaded, respond, k) + j, RowsBefore(loaded, respond, |loaded|);
            && at < n && |p.stored| == |start.stored| + n && |p.findings| == |start.findings| + n
            && SaysFinding(p.stored[|start.stored| + at], p.findings[|start.findings| + at], loaded[k], respond(loaded[k]), j)
    ensures var p := Over(start, loaded, respond); var at := DocumentsBefore(loaded, respond, k);
            && at < DocumentsBefore(loaded, respond, |loaded|)
            && |p.documents| == |start.documents| + DocumentsBefore(loaded, respond, |loaded|)
            && DocumentSays(p.documents[|start.documents| + at], loaded[k])
  {
    hide *;
    var l, reply := loaded[k], respond(loaded[k]);
    var before, after, end := Over(start, loaded[..k], respond), Over(start, loaded[..k + 1], respond), Over(start, loaded, respond);
    RunPlaces(start, loaded, respond, k);
    AnswerIsNoFailure(reply);
    NextDocument(start, loaded, k, respond);
    RunPlaces(start, loaded, respond, |loaded|);
    assert loaded[..|loaded|] == loaded && loaded == loaded[..k + 1] + loaded[k + 1..];
    OverConcat(start, loaded[..k + 1], loaded[k + 1..], respond);
    RunKeeps(after, loaded[k + 1..], respond);
    AnswerSays(l, reply, j);
    DocumentOfSays(l);
    PlacedParts(start, before, loaded, respond, k);
    PlacedParts(start, end, loaded, respond, |loaded|);
    RowStands(start, before, after, end, l, reply, j);
  }

  lemma AnswerIsNoFailure(reply: Reply)
    requires reply.Response?
    ensures !reply.Fails?
  {
  }

  lemma DocumentOfSays(l: Storage.Loaded)
    ensures DocumentSays(DocumentOf(l), l)
  {
  }

  lemma PlacedParts(start: Progress, p: Progress, loaded: seq<Storage.Loaded>, respond: Sidecar, k: nat)
    requires Placed(start, p, loaded, respond, k)
    ensures k <= |loaded| && start.stored <= p.stored && start.findings <= p.findings && start.documents <= p.documents
    ensures |p.stored| == |start.stored| + RowsBefore(loaded, respond, k) && |p.findings| == |start.findings| + RowsBefore(loaded, respond, k)
    ensures |p.documents| == |start.documents| + DocumentsBefore(loaded, respond, k)
  {
    hide RowsBefore, DocumentsBefore;
  }

  lemma RowStands(start: Progress, before: Progress, after: Progress, end: Progress, l: Storage.Loaded, reply: Reply, j: nat)
    requires reply.Response? && j < RowCount(reply) && after == Step(before, l, reply)
    requires start.stored <= before.stored && start.findings <= before.findings && start.documents <= before.documents
    requires after.stored <= end.stored && after.findings <= end.findings && after.documents <= end.documents
    requires |Rows(l.docHash, reply)| == RowCount(reply) && |StoredRows(l, reply)| == RowCount(reply)
    ensures |before.stored| + j < |end.stored| && |before.findings| + j < |end.findings| && |before.documents| < |end.documents|
    ensures end.stored[|before.stored| + j] == StoredRows(l, reply)[j] && end.findings[|before.findings| + j] == Rows(l.docHash, reply)[j]
    ensures end.documents[|before.documents|] == DocumentOf(l)
  {
    hide Rows, StoredRows, DocumentOf, RowCount;
  }

  /** The event that ends up in the corpus for the j-th finding of the k-th loaded document. */
  ghost predicate EventSaysFinding(e: Corpus.EventRow, l: Storage.Loaded, reply: Reply, j: nat)
    requires reply.Response? && j < RowCount(reply)
  {
    && e.docHash == l.docHash && e.stage == "post_map" && e.attempt == 1
    && if reply.findings == [] then
         && e.outcome == "pass" && e.ruleId == None && e.businessTerm == None && e.xpath == None && e.failureClass == None && e.valueShape == None
       else
         var f := reply.findings[j];
         && e.outcome == (if f.severity == Severity.Warning then "warn" else "fail")
         && e.ruleId == Some(f.ruleId) && e.businessTerm == f.businessTerm && e.xpath == Some(f.xpath)
         && e.failureClass == f.failureClass && e.valueShape == Some(f.valueShape)
  }

  lemma HandedOnSays(row: PersistedFinding, stored: StoredFinding, l: Storage.Loaded, reply: Reply, j: nat, input: Corpus.RecordInput,
                     e: Corpus.EventRow)
    requires reply.Response? && j < RowCount(reply) && reply.outcome == ComputeOutcome(reply.findings)
    requires SaysFinding(stored, row, l, reply, j) && Corpus.EventSays(e, input, CorpusFinding(row))
    ensures EventSaysFinding(e, l, reply, j)
  {
    hide Corpus.KeyTextSays;
    if reply.findings != [] {
      assert reply.findings[j].severity == Severity.Warning || IsFailing(reply.findings[j]);
    }
  }

  /**
   * From the answers to the corpus: when the hand-off of a completed run is recorded, the events appended are, in order,
   * one for each finding of each answer and one for an answer without findings, and say what it says.
   */
  lemma EventsSayTheFindings(register: Progress, loaded: seq<Storage.Loaded>, respond: Sidecar, rest: Corpus.RecordInput,
                             typeText: DocType -> string, scenarioText: Scenario -> string,
                             t: Corpus.Tables, sc: Corpus.Scanner, now: int, k: nat, j: nat)
    requires Completes(loaded, respond) && register == Progress(None, [], [], 0, register.stored, register.defects)
    requires k < |loaded| && respond(loaded[k]).Response? && j < RowCount(respond(loaded[k]))
    requires respond(loaded[k]).outcome == ComputeOutcome(respond(loaded[k]).findings)
    requires Corpus.Integrity(t)
    requires Corpus.Record(t, sc, CorpusInput(rest, ResultOf(Over(register, loaded, respond)), typeText, scenarioText), now).Ok?
    ensures var input := CorpusInput(rest, ResultOf(Over(register, loaded, respond)), typeText, scenarioText);
            var events := Corpus.Record(t, sc, input, now).value.events;
            && |events| == |t.events| + RowsBefore(loaded, respond, |loaded|)
            && RowsBefore(loaded, respond, k) + j < RowsBefore(loaded, respond, |loaded|)
            && EventSaysFinding(events[|t.events| + RowsBefore(loaded, respond, k) + j], loaded[k], respond(loaded[k]), j)
  {
    hide *;
    RowsSayTheirFindings(register, loaded, respond, k, j);
    var p := Over(register, loaded, respond);
    var input := CorpusInput(rest, ResultOf(p), typeText, scenarioText);
    var at := RowsBefore(loaded, respond, k) + j;
    ResultFindings(p);
    Corpus.EventsSayTheirFindings(t, sc, input, now, at);
    HandedOnSays(p.findings[at], p.stored[|register.stored| + at], loaded[k], respond(loaded[k]), j, input,
                 Corpus.Record(t, sc, input, now).value.events[|t.events| + at]);
  }

  lemma ResultFindings(p: Progress)
    ensures ResultOf(p).findings == p.findings && ResultOf(p).documents == p.documents
  {
  }

  /** The corpus input for the k-th loaded document. */
  ghost predicate InputSays(d: Corpus.DocumentInput, l: Storage.Loaded, typeText: DocType -> string, scenarioText: Scenario -> string) {
    var h := l.doc.header;
    && d.docHash == l.docHash && d.docType == typeText(h.docType) && d.scenario == scenarioText(h.scenario) && d.currency == h.currency
    && d.lineCount == |l.doc.lines| && d.hasAllowanceCharge == h.hasAllowanceCharge && d.hasMultiTaxRate == h.hasMultiTaxRate
    && d.counterpartyHash == None
  }

  lemma HandedOnDocumentSays(d: ValidatedDocument, l: Storage.Loaded, typeText: DocType -> string, scenarioText: Scenario -> string)
    requires DocumentSays(d, l)
    ensures InputSays(CorpusDocument(d, typeText, scenarioText), l, typeText, scenarioText)
  {
  }

  /** The documents handed to the corpus are, in order, those answered, and say what was loaded. */
  lemma DocumentsSayWhatWasLoaded(register: Progress, loaded: seq<Storage.Loaded>, respond: Sidecar, rest: Corpus.RecordInput,
                                  typeText: DocType -> string, scenarioText: Scenario -> string, k: nat)
    requires Completes(loaded, respond) && register == Progress(None, [], [], 0, register.stored, register.defects)
    requires k < |loaded| && respond(loaded[k]).Response?
    ensures var input := CorpusInput(rest, ResultOf(Over(register, loaded, respond)), typeText, scenarioText);
            && |input.documents| == DocumentsBefore(loaded, respond, |loaded|)
            && DocumentsBefore(loaded, respond, k) < |input.documents|
            && InputSays(input.documents[DocumentsBefore(loaded, respond, k)], loaded[k], typeText, scenarioText)
  {
    AnswerHasARow(respond(loaded[k]));
    hide *;
    RowsSayTheirFindings(register, loaded, respond, k, 0);
    ResultFindings(Over(register, loaded, respond));
    HandedOnDocumentSays(Over(register, loaded, respond).documents[DocumentsBefore(loaded, respond, k)], loaded[k], typeText, scenarioText);
  }

  lemma AnswerHasARow(reply: Reply)
    requires reply.Response?
    ensures 0 < RowCount(reply)
  {
  }
}
