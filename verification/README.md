# A verified model of the compliance data layer

Dafny modules that model the logic of an invoice-compliance service: a web application that ingests
spreadsheets, prints UBL documents, has them validated and records findings in a shared corpus, and a
validator that parses UBL and runs Schematron rulesets. Code that updates state in place is modelled by
classes and methods proved against specification functions; protocols are modelled as steps of many
participants over one state, and their properties are proved for every run. `dafny verify dfyconfig.toml`
checks everything.

| file | what it models |
|---|---|
| `Text.dfy`, `Money.dfy` | decimal text; amounts in minor units, printed and read without floating point |
| `Shapes.dfy`, `Redaction.dfy` | the shape that stands for a client value in a finding, in both implementations; the run-time check that nothing raw is left in a message |
| `Recurrence.dfy` | the text hashed into a finding's recurrence key |
| `LeaseLedger.dfy`, `Drain.dfy` | the job execution ledger with its leases, many workers at once; the budgeted drain of the five-stage pipeline |
| `Schematron.dfy`, `FirstMatch.dfy`, `Findings.dfy`, `Lets.dfy`, `SaxonQueue.dfy` | the Schematron engine: the evaluation loop, its first-match reading, what a run reports, the inlining of `sch:let`, and the single thread that owns the Saxon processor |
| `SeedPlan.dfy`, `Corpus.dfy` | the rule catalogue planned from the same Schematron files; the append-only corpus tables and their transactions |
| `Canonical.dfy`, `Storage.dfy`, `ValidationRun.dfy` | canonical documents written to rows and rebuilt; a validation run and what it hands to the corpus |
| `Tenancy.dfy` | tenant transactions on pooled connections under the row policy |
| `Tabular.dfy` | rows of a spreadsheet grouped into documents, with defects |
| `XmlText.dfy`, `UblNames.dfy`, `UblTree.dfy`, `UblPrinter.dfy`, `Namespaces.dfy`, `UblParser.dfy` | escaping and reading of XML text, the UBL printer, namespaces, the UBL parser, and the round trip between them |

## Reading the main results

Where the code meets a promise only under a condition, the condition is stated and shown to be needed.

- **Leases.** The two settling updates carry no ownership guard, so exclusion rests on timing: whenever a
  claim is sent, every holder is still within its own lease. Under that assumption at most one worker runs a
  job; a single claim breaks exclusion exactly when the holder is late (`ExclusionBreaksExactlyWhenLate`), and
  `LateHolderBreaksExclusion` is a whole run that does.
- **Lost answers.** The update to `completed` can take effect while its answer is lost; the catch block then
  overwrites it with `failed`, and the next delivery runs the body again, however timely everybody is
  (`LostAnswerRepeatsTheBody`). A completed row is final exactly when no call is in that position
  (`CompletedIsFinalExactly`), and `SuccessIsRecordedOnce` counts every success that was wasted or overturned.
- **Pooled connections.** `transaction` swallows a failed ROLLBACK and releases its client without an error. If
  the ROLLBACK never reached the server and the pool lends the connection again, the next caller continues in
  the old transaction: it reads the other tenant's rows, and its COMMIT commits the failed access's log row
  (`FailedRollbackIsReused`). A setting made with a plain SET survives its COMMIT (`LastingSettingLeaks`).
  Nobody meets another's tenant exactly when neither happens (`CleanExactlyWhenNothingLeaks`). An access whose
  callback goes on after an aborting statement returns its result with no log row (`WithTenantAccess`).
- **Engine thread.** A call whose `_alive` check comes before a shutdown and whose put comes after the
  shutdown marker waits for ever: `WaitsForeverExactlyAfterTheMarker`, `ShutdownCanOvertakeACall`. Markers
  queued while no call stands between check and put strand nobody.
- **Lets.** Bindings are inlined in file order, so a value that uses an *earlier* binding, the natural way to
  write one, leaves that variable in the text: `ClosedExactlyWhenForward`, `EarlierBindingIsLeft`.
- **Lets as text.** The replacement knows neither literals nor where an XPath name ends. One replacement hits
  exactly the references to its name if and only if no literal or comment holds a match and no other variable's
  name is torn (`SubIsReplaceExactly`): `'$rate'` is rewritten (`LiteralIsRewritten`), and `$tax-rate` is torn by
  an earlier binding `tax` but not by a later one (`LongerNameIsTorn`, `LongerNameFirst`,
  `NamesSurviveExactly`). A value whose parentheses do not match within it regroups the expression
  (`UnbalancedValueRegroups`).
- **Empty rules.** Rules without assertions are dropped when a Schematron file is compiled. The findings stay
  those of the source exactly when every such rule is harmless (`DroppingEmptyRulesIsExact`).
- **Redaction check.** It raises on a derived shape exactly when the rule's description or its escaped pattern
  is itself dirty, for values shorter than 10^14 characters; a fifteen-digit length does raise.
- **Shapes.** `shape.ts` says it must match `redaction.py`, but its run limit is 32 where `redaction.py` has 12.
  The model follows the code; `DerivationsAgree` says exactly when the two agree on printable text. Python's
  `isdigit` holds of characters beyond ASCII that `[0-9]` does not have, so a signature of `redaction.py` does
  not always match its own value (`PySignatureMatchesExactly`).
- **One call and many.** A call of `withTenantAccess` or `idempotent` from start to end, with every answer and
  failure it may meet, is proved to be a run of the steps that the protocol theorems are about (`AccessIsARun`,
  `CallIsASchedule`).
- **Two readers of one ruleset.** The seeder drops namespace prefixes, so of several attributes with one local
  name it reads the last, where the engine reads the one it asks for. A rule id is planned exactly when some
  assertion of a planned file has it as its last value of local name `id` (`PlannedExactly`), and the planned
  rule says what the engine's does exactly when the two read the attributes alike (`PlannedRuleAgrees`).
  `SecondIdHidesRule` is a registry whose plan succeeds and lacks a rule the engine reports.
- **Line order.** Rebuilt documents have their lines in order, from every order of returned rows, exactly when
  line numbers never decrease and equal numbers mean equal lines.
- **Carriage returns.** A value comes back from UBL unchanged exactly when it has no carriage return, because
  an XML reader normalises line breaks (section 2.11 of XML 1.0).
- **Counterparties.** `recordCorpus` inserts the call's own counterparty only; a document that names another
  one is refused by its foreign key (`StrangeCounterparty` in `RecordEffect`).

## Model

| member | source | states |
|---|---|---|
| Money.ToMinorExact | apps/web/modules/ingestion/money.ts:65-89 | `toMinor` answers n exactly when the currency is known, the string denotes a number, n minor units are that very number and n is a safe integer |
| Money.ToMinorRefuses | apps/web/modules/ingestion/money.ts:65-89 | it refuses exactly when no safe whole number of minor units is the amount |
| Money.AcceptedSpellingsAgree | apps/web/modules/ingestion/money.ts:65-89 | two accepted strings give one result exactly when they denote one number |
| Money.DenotationIsMatched | apps/web/modules/ingestion/money.ts:67-75 | what a string denotes, read character by character as a sign, digits on either side of a point, commas anywhere and blanks around, is what trimming, dropping the commas and matching make of it |
| Money.CommaCountsForNothing | apps/web/modules/ingestion/money.ts:67 | a comma anywhere in a text without blanks at the cut changes nothing, and the text after it still counts |
| Money.PlusCountsForNothing | apps/web/modules/ingestion/money.ts:68-75 | nor does a plus sign before an unsigned amount |
| Money.BlanksCountForNothing | apps/web/modules/ingestion/money.ts:67 | nor do blanks around it |
| Money.DigitsDenote | apps/web/modules/ingestion/money.ts:68-83 | whole digits, a point and fraction digits denote the number they write out |
| Money.TriesExactly | apps/web/modules/ingestion/money.ts:92-106 | `tryToMinor` answers exactly what `toMinor` does, and says the currency is unknown exactly when there is an amount text and it is |
| Money.CaseDoesNotMatter | apps/web/modules/ingestion/money.ts:50-58 | currency codes that differ in case alone have one exponent |
| Money.MinorRoundTrip | apps/web/modules/ingestion/money.ts:112-118 | `toMinor(minorToDecimal(n, c), c)` is n for every safe n and known currency |
| Money.UnsafeDoesNotReturn | apps/web/modules/ingestion/money.ts:85-87 | beyond the safe range the printed text is refused on the way back |
| Shapes.SignatureLoop | apps/validator/src/validator/redaction.py:119-138 | the run-length loop with its early exit computes the signature of the whole value, and the collapsed form exactly above the run limit |
| Shapes.PrintLoop | apps/validator/src/validator/redaction.py:140 | the joined runs are the printed signature |
| Shapes.RunsMatch | apps/validator/src/validator/redaction.py:130-136 | the runs expand to the value's classes character by character and are maximal |
| Shapes.MaximalUnique | apps/validator/src/validator/redaction.py:130-136 | no other maximal runs expand to the same classes |
| Shapes.ParsePrint | apps/validator/src/validator/redaction.py:140 | a printed signature parses back to exactly its runs |
| Shapes.SignatureFaithful | apps/validator/src/validator/redaction.py:119-140 | the signature parses to the value's own runs up to the limit and is the collapsed form, which does not parse, exactly above it |
| Shapes.TsSignatureMatches | apps/web/modules/ingestion/shape.ts:40-66 | a signature of `shape.ts`, read as a regular expression, matches the value it stands for |
| Shapes.PySignatureMatchesExactly | apps/validator/src/validator/redaction.py:96-140 | one of `redaction.py` does exactly when it is collapsed or no character is a digit beyond ASCII |
| Shapes.CharsetMeans | apps/web/modules/ingestion/shape.ts:28-36 | the charset says which characters the whole value is made of |
| Shapes.EnforceNoEcho | apps/validator/src/validator/redaction.py:143-166 | the loop that nulls colliding fields in place keeps every other field |
| Shapes.NoEcho | apps/validator/src/validator/redaction.py:143-166 | afterwards no field's text is the raw value |
| Shapes.DerivedShapeHasNoEcho | apps/validator/src/validator/redaction.py:169-191 | no field of a derived shape is the raw value |
| Shapes.DerivationsAgree | apps/web/modules/ingestion/shape.ts:28-95 | on printable text, `valueShape` and `derive_value_shape` agree exactly when the run count is at most 12 or above 32 |
| Redaction.NoMatchCrossesASeam | apps/validator/src/validator/redaction.py:66-72 | a raw-value pattern that matches a text matches it on one side of any seam character |
| Redaction.ProbeHitsExactly | apps/validator/src/validator/redaction.py:219-232 | message and shape together match exactly when the description or the escaped pattern does |
| Redaction.BackstopIsUnreachable | apps/validator/src/validator/redaction.py:207-232 | `build_message` on a derived shape raises exactly in that case, for values shorter than 10^14 characters |
| Redaction.FifteenDigitLengthRaises | apps/validator/src/validator/redaction.py:66-72 | a length of fifteen digits makes it raise |
| Redaction.AbsentAndEmptyAreTold | apps/validator/src/validator/redaction.py:194-204 | a finding's message tells an absent value from an empty one, and both from any other |
| Recurrence.SplitJoin | apps/web/modules/corpus/recurrence.ts:29-56 | joined parts free of the separator are recovered by splitting |
| Recurrence.KeyTextSplits | apps/web/modules/corpus/recurrence.ts:43-56 | the hashed text splits back into entity, rule, xpath and the parts of the shape |
| Recurrence.KeyTextDetermines | apps/web/modules/corpus/recurrence.ts:32-56 | two inputs have one text exactly when entity, rule, xpath and shape agree with null read as empty; a missing shape never coincides with a present one |
| Recurrence.SeparatorInFieldCollides | apps/web/modules/corpus/recurrence.ts:29 | with the separator inside a field, two different inputs do collide |
| Recurrence.SignatureIsFree | apps/web/modules/ingestion/shape.ts:51-66 | printed signatures never contain the separator |
| LeaseLedger.JobExecution.Claim | apps/web/jobs/idempotent.ts:56-68 | the claim statement: insert, steal or nothing, with the row count |
| LeaseLedger.JobExecution.Idempotent | apps/web/jobs/idempotent.ts:40-89 | one call from start to end, any of its statements failing or losing its answer: the new ledger, what is returned or thrown, and whether the body ran |
| LeaseLedger.AnswerIs | apps/web/jobs/idempotent.ts:40-89 | the body's own value exactly when it ran and its success was recorded; skipped exactly for a completed row; the lease of the row exactly for a running one; and otherwise the error of the claim, of the look, of the body, or of the update that failed, the last one that did |
| LeaseLedger.RowIs | apps/web/jobs/idempotent.ts:56-88 | the row after a body ran, field by field |
| LeaseLedger.OtherRowsStay | apps/web/jobs/idempotent.ts:56-88 | every other row is as it was |
| LeaseLedger.CallIsASchedule | apps/web/jobs/idempotent.ts:40-89 | every call, whatever fails, is a schedule of the workers' steps, possible among whatever all others do, to the same rows and with the verdict of its answer |
| LeaseLedger.RerunIsNoOp | apps/web/jobs/idempotent.ts:70-74 | a run that returned is skipped at any later time with nothing written |
| LeaseLedger.ThrownRunIsRetriedExactly | apps/web/jobs/idempotent.ts:59-88 | after a run that threw, the next delivery runs the body exactly when the update to `failed` took effect, or the row was left running and its lease is over; also when the body had returned and been recorded |
| LeaseLedger.AttemptCountsClaims | apps/web/jobs/idempotent.ts:47-89 | in every interleaving, `attempt` is the number of successful claims and `skipped` is answered only after a success was recorded |
| LeaseLedger.MutualExclusion | apps/web/jobs/idempotent.ts:56-68 | in every timely interleaving at most one call for a given job and run has its body running or may still update the row |
| LeaseLedger.CompletedIsFinalExactly | apps/web/jobs/idempotent.ts:59-88 | every timely continuation keeps a completed row exactly as it is if and only if no call has lost the answer to the update that completed it |
| LeaseLedger.ExclusionBreaksExactlyWhenLate | apps/web/jobs/idempotent.ts:64-66 | a claim on a held key keeps exclusion exactly when the holder is within its lease |
| LeaseLedger.SuccessIsRecordedOnce | apps/web/jobs/idempotent.ts:77-88 | per key at most one call returns the result, a success stays recorded unless overturned, and every further success of a body was wasted by a crash or failed update or overturned after a lost answer |
| LeaseLedger.LostAnswerRepeatsTheBody | apps/web/jobs/idempotent.ts:79-88 | a timely run in which a recorded success is overwritten with `failed` and the body succeeds again |
| LeaseLedger.LateHolderBreaksExclusion | apps/web/jobs/idempotent.ts:79-86 | a run in which a late holder is stolen from and later overwrites `completed` |
| Drain.Boss.Fetch | apps/web/jobs/drain.ts:149-150 | one ready job is taken from the front of its queue |
| Drain.Boss.RunOne | apps/web/jobs/drain.ts:184-211 | the job is settled exactly once, by `complete` or by `fail` as its handler ended, and its next job is queued |
| Drain.DrainQueues | apps/web/jobs/drain.ts:122-175 | it terminates without a deadline; queues are tried round-robin, one clock reading before each attempt, and every attempt's reading is before the deadline; the budget is exhausted exactly when the last reading made in the loop is at or past it; jobs are neither lost nor made up, each settled once; the counters and elapsed time agree; with the budget not exhausted every queue is empty |
| Drain.CountersAgree | apps/web/jobs/drain.ts:152-158 | fetched is completed plus failed plus lease-held, and the sum over the queues |
| Drain.SettlementsSay | apps/web/jobs/drain.ts:184-211 | each fetched job is settled on its own queue, by `complete` exactly when its handler returned |
| Drain.CountersAreSettlements | apps/web/jobs/drain.ts:152-158 | the counters are the jobs completed and failed in the store, a held lease counted as failed there |
| Drain.AdvancedStagesLeft | apps/web/jobs/handlers/index.ts:18-24 | running a job uses up a stage whatever its handler enqueues |
| Schematron.EvaluateRules | apps/validator/src/validator/engine.py:642-650 | the rules of a claimed node contribute their verdicts in order, or end the run with the right result |
| Schematron.ClaimNodes | apps/validator/src/validator/engine.py:626-650 | the nodes of one context, with the claimed set they leave behind |
| Schematron.ValidatePattern | apps/validator/src/validator/engine.py:609-650 | the contexts of one pattern with its own claimed set |
| Schematron.Validate | apps/validator/src/validator/engine.py:585-652 | the whole loop returns what the verdicts in evaluation order resolve to |
| Schematron.StopIsCut | apps/validator/src/validator/engine.py:649-650 | stopping on the first error returns the full list cut just after its first fatal or error finding |
| Schematron.OutcomeOfCut | apps/validator/src/validator/main.py:130-136 | the cut list has the same outcome |
| Schematron.RetryKeepsOutcome | apps/web/lib/validator-client.ts:104-117 | the retry after a timeout returns that cut list and the same outcome |
| Schematron.RetryOfRaisingRun | apps/web/lib/validator-client.ts:104-117 | when the full run raises, the retry raises too or has already failed the document |
| Schematron.WarningsAreFiltered | apps/validator/src/validator/engine.py:646-647 | leaving warnings out filters the full list and changes nothing else |
| Schematron.FindingsNameCompiledRules | apps/validator/src/validator/engine.py:654-709 | every finding carries id, severity and class of a compiled rule |
| Findings.FindingsAreTheFiringRules | apps/validator/src/validator/engine.py:585-709 | the findings of a run with warnings are, in order, one for each rule that fires where its context is the first of its pattern to match, each with that rule's fields, the path of that node and the shape of the value there |
| Findings.RunsThroughExactly | apps/validator/src/validator/engine.py:609-709 | a run returns exactly when every context, every test met and every value needed can be evaluated and nothing dirty would be reported |
| Findings.RaisesTheFirstFailure | apps/validator/src/validator/engine.py:654-709 | otherwise it raises the failure of the first evaluation that fails |
| Findings.EmptyExactlyWhenConforming | apps/validator/src/validator/engine.py:668-673 | a run reports nothing exactly when every assert it meets holds and no report does |
| Findings.OutcomeIsOfTheFiringRules | apps/validator/src/validator/main.py:130-136 | the outcome is pass exactly when no rule fires, and fail exactly when one that is no warning does |
| Findings.FirstToMatchJudges | apps/validator/src/validator/engine.py:626-650 | a location is judged by the rules of a context, once, exactly when that context is the first to match it |
| FirstMatch.ClaimingIsFirstMatch | apps/validator/src/validator/engine.py:609-652 | the loop with the mutable claimed set meets exactly the declared verdicts, in order |
| FirstMatch.JudgedOnceByTheFirst | apps/validator/src/validator/engine.py:630-637 | a context judges exactly the locations it is the first to match, each once |
| FirstMatch.DroppingEmptyRulesIsExact | apps/validator/src/validator/engine.py:361 | dropping rules without assertions keeps every document's findings exactly when each such rule is harmless |
| FirstMatch.HarmfulRuleShows | apps/validator/src/validator/engine.py:361 | for every other pattern there is a document on which the findings differ |
| Lets.SubstituteLets | apps/validator/src/validator/engine.py:207-216 | the loop of replacements is the sequence of single replacements |
| Lets.VarMatchesExactly | apps/validator/src/validator/engine.py:215 | the pattern matches a variable exactly when it is the name, ending in a word character, or when it tears the variable's longer name |
| Lets.SubIsReplaceExactly | apps/validator/src/validator/engine.py:215 | one textual replacement is the replacement of the references to its name exactly when no literal or comment holds a match and no other variable's name is torn |
| Lets.SubFromIsReplace | apps/validator/src/validator/engine.py:214-216 | the text after all replacements reads as the tokens with all references replaced |
| Lets.NamesSurviveExactly | apps/validator/src/validator/engine.py:214-216 | every let variable is still there when its own binding's turn comes exactly when no name is torn by that of an earlier binding |
| Lets.ReadBack | apps/validator/src/validator/engine.py:207-216 | reading tokens by matching parentheses and flattening a tree undo each other |
| Lets.SubstitutionReadsAsTheTree | apps/validator/src/validator/engine.py:207-216 | the text returned, read back by matching parentheses, is the inlined expression tree |
| Lets.ClosedExactlyWhenForward | apps/validator/src/validator/engine.py:207-216 | no variable is left in any expression the bindings fit exactly when no value mentions itself or an earlier binding |
| Lets.SubstitutionKeepsMeaning | apps/validator/src/validator/engine.py:207-216 | the text returned, read back, mentions no let variable and has, under any bindings that keep the other variables, the value the original has under the let bindings |
| Lets.BindingsExist | apps/validator/src/validator/engine.py:207-216 | those let bindings exist |
| Lets.EarlierBindingIsLeft | apps/validator/src/validator/engine.py:214-216 | a value that uses an earlier binding leaves its variable in the text |
| Lets.LiteralIsRewritten | apps/validator/src/validator/engine.py:215 | a variable inside a string literal is rewritten |
| Lets.LongerNameIsTorn | apps/validator/src/validator/engine.py:215 | a name with a hyphen is torn by an earlier binding of its first part |
| Lets.UnbalancedValueRegroups | apps/validator/src/validator/engine.py:215 | a value with unbalanced parentheses is not one group in the text returned |
| SaxonQueue.SchematronEngine.Get | apps/validator/src/validator/engine.py:493-498 | the worker takes the head of the queue and stops at the marker |
| SaxonQueue.SchematronEngine.RunTask | apps/validator/src/validator/engine.py:509-516 | a task sets its own answer |
| SaxonQueue.SchematronEngine.Run | apps/validator/src/validator/engine.py:493-498 | the worker runs until the queue is empty or it has stopped |
| SaxonQueue.SchematronEngine.Submit | apps/validator/src/validator/engine.py:500-518 | refused once the engine is down, otherwise queued |
| SaxonQueue.SchematronEngine.Invoke | apps/validator/src/validator/engine.py:500-522 | with no other caller in between, the task runs after everything queued before it and its own answer comes back |
| SaxonQueue.RunsInOrderOnce | apps/validator/src/validator/engine.py:493-522 | in every interleaving, tasks queued before the first marker run exactly once and in queue order |
| SaxonQueue.CallerGetsOwnAnswer | apps/validator/src/validator/engine.py:500-522 | a call that returns gets the answer of its own work, with the processor there exactly until a drop has run |
| SaxonQueue.ReturningCallAnswers | apps/validator/src/validator/engine.py:500-522 | that answer is the work's own early error, else the processor's, and the shutdown error once an earlier task had dropped it |
| SaxonQueue.StopsOnlyAfterTheDrop | apps/validator/src/validator/engine.py:534-563 | the marker is queued and the worker stops only after the drop ran on the thread |
| SaxonQueue.OneTaskAtATime | apps/validator/src/validator/engine.py:493-518 | no task uses the processor after the drop, in any interleaving of callers with the one thread that runs them |
| SaxonQueue.StrandedForever | apps/validator/src/validator/engine.py:500-522 | a task queued after the marker is never answered, whatever happens next |
| SaxonQueue.WaitsForeverExactlyAfterTheMarker | apps/validator/src/validator/engine.py:500-563 | a waiting call can still return exactly when its task was queued before the first marker |
| SaxonQueue.QuietShutdownStrandsNobody | apps/validator/src/validator/engine.py:534-563 | when no call stands between check and put as a marker is queued, no call waits for ever |
| SaxonQueue.ReadyAtMarkerIsStranded | apps/validator/src/validator/engine.py:500-518 | a call that does stand there is stranded as soon as it queues its task |
| SaxonQueue.ShutdownCanOvertakeACall | apps/validator/src/validator/engine.py:500-563 | a run in which a whole shutdown passes between a call's check and its put |
| SeedPlan.WalkInto | packages/db/scripts/seed-rules.ts:198-218 | the recursive walk pushes a rule for each assertion, or stops at the first malformed one |
| SeedPlan.PlanPaths | packages/db/scripts/seed-rules.ts:327-352 | the paths of one live entry add their owners, files and rules |
| SeedPlan.BuildPlan | packages/db/scripts/seed-rules.ts:314-381 | the plan of the whole registry, or why there is none; its check that every owner has an entry never fails |
| SeedPlan.WalkExtracts | packages/db/scripts/seed-rules.ts:198-218 | a rule is extracted from every assertion element, wherever it stands |
| SeedPlan.WalkComesFrom | packages/db/scripts/seed-rules.ts:198-218 | and every extracted rule comes from one |
| SeedPlan.ExtractedSays | packages/db/scripts/seed-rules.ts:199-280 | every extracted rule says, field by field, what its assertion says, in the context of the innermost rule around it that has one |
| SeedPlan.AssertionIsExtracted | packages/db/scripts/seed-rules.ts:199-280 | and every assertion is extracted as such a rule |
| SeedPlan.WalkConcat | packages/db/scripts/seed-rules.ts:199-216 | rules are extracted in document order |
| SeedPlan.OwnerExactly | packages/db/scripts/seed-rules.ts:303-311 | the owner of a path is what stands before its first slash |
| SeedPlan.SpecificationsSay | packages/db/scripts/seed-rules.ts:366-376 | one specification per owner, that says what the registry says of it |
| SeedPlan.LoadsExactly | apps/validator/src/validator/engine.py:219-372 | the engine loads a file exactly when it is a schema with a known query binding, has no unsupported element anywhere, and names, contexts and assertions are complete |
| SeedPlan.PlannedExactly | packages/db/scripts/seed-rules.ts:314-381 | a rule id is planned exactly once, under a listed specification that is not quarantined, exactly when some assertion of a planned file has it as its last value of local name id; any other id is not planned |
| SeedPlan.EveryEngineRuleIsPlannedOnce | packages/db/scripts/seed-rules.ts:314-381 | that is so for every rule the engine compiles for a live profile, and its own assertion decides it unless a later attribute of local name id says otherwise |
| SeedPlan.LoadedFrom | apps/validator/src/validator/engine.py:375-426 | every compiled rule comes from one of the ruleset's files |
| SeedPlan.LoadedRuleComesFromAssertion | apps/validator/src/validator/engine.py:293-372 | and there from an assertion element whose attributes compile to it |
| SeedPlan.PlannedRuleAgrees | packages/db/scripts/seed-rules.ts:220-280 | severity, class, codes and terms of the planned rule are the engine's exactly when the two read the assertion's attributes alike |
| SeedPlan.SameIdExactly | packages/db/scripts/seed-rules.ts:220-280 | an assertion gets one id from both readers exactly when its last attribute of local name id says what the unprefixed one says |
| SeedPlan.PlainReadsAlike | packages/db/scripts/seed-rules.ts:151-170 | an assertion whose attributes each stand in one namespace, once, is read alike |
| SeedPlan.SameReading | packages/db/scripts/seed-rules.ts:167-170 | the two ways of reading an attribute agree when its local name stands in one namespace, once |
| SeedPlan.PlanOwnersAreListed | packages/db/scripts/seed-rules.ts:303-381 | every planned rule is owned by a listed, live specification |
| SeedPlan.SecondIdHidesRule | packages/db/scripts/seed-rules.ts:151-170 | a registry and file whose plan succeeds, whose ruleset compiles a rule, and whose plan does not hold that rule's id |
| Corpus.CorpusDb.RecordCorpus | apps/web/modules/corpus/record.ts:90-196 | a call that succeeds leaves the recorded tables and its counts; one that throws leaves every table as it was |
| Corpus.CorpusDb.SeedSpecCatalogue | apps/web/modules/corpus/record.ts:263-290 | the specification and its rules are inserted where missing |
| Corpus.RecordEffect | apps/web/modules/corpus/record.ts:90-223 | with integrity before, a call goes through exactly when it is acceptable; it keeps integrity and every row and appends one event per finding, in order |
| Corpus.DocumentsSucceed | apps/web/modules/corpus/record.ts:153-166 | inserting the documents succeeds exactly when each is there, repeated, or refers to existing rows |
| Corpus.SeedEffect | apps/web/modules/corpus/record.ts:263-290 | seeding keeps integrity and every row, and every seeded rule is there |
| Corpus.ApplyEffect | packages/db/scripts/seed-rules.ts:402-430 | applying a plan goes through exactly when it lists a specification; it keeps integrity and every row, and the rules afterwards are those before and the planned ones |
| Corpus.SeedingKnowsExactly | packages/db/scripts/seed-rules.ts:402-430 | after seeding, a finding's rule is known exactly when it was before or the plan holds it |
| Corpus.CorpusIsAppendOnly | packages/db/policies/002_corpus_append_only.sql:22-39 | over every sequence of calls no row changes or disappears and every reference names a row that exists |
| Corpus.OneEventPerFinding | apps/web/modules/corpus/record.ts:170-189 | over every sequence of calls the events are one per finding of the calls that went through, in order |
| Corpus.EventsSayTheirFindings | apps/web/modules/corpus/record.ts:170-189 | each event appended says, column by column, its finding and its call, and its key text splits into entity, rule, path and shape |
| Corpus.NewRowsSayTheirCall | apps/web/modules/corpus/record.ts:109-166 | every row a call adds to another table says what the call says; a document's own counterparty goes before the call's |
| Corpus.SeededRowsSay | apps/web/modules/corpus/record.ts:263-290 | every rule a seeding adds says what the first given rule of its id says |
| Corpus.AppliedRowsSay | packages/db/scripts/seed-rules.ts:402-430 | every rule and specification that applying a plan adds says what the plan says |
| Corpus.SeededRunsAreAccepted | apps/web/modules/corpus/record.ts:200-223 | after seeding, findings that name planned rules are accepted, whatever calls came in between |
| Corpus.KnownDocumentsDoNotThrow | apps/web/modules/corpus/record.ts:99-107 | findings that name listed documents are never refused for an unknown one |
| Storage.ClientTables.WriteDocuments | apps/web/modules/ingestion/normalise.ts:110-166 | the rows of all documents under new ids, or nothing when a column refuses a value |
| Storage.DocumentStoredExactly | apps/web/modules/ingestion/normalise.ts:110-167 | a document is refused exactly when a column refuses its date, a quantity or a rate, and is else stored field by field as it is, but for these and its reference |
| Storage.LoadCanonical | apps/web/modules/audit/validate.ts:297-355 | the rebuilt documents of whatever rows the two queries return |
| Storage.BucketByInvoice | apps/web/modules/audit/validate.ts:316-321 | each invoice's bucket holds its own lines in returned order |
| Storage.SortKeeps | apps/web/modules/audit/validate.ts:341-342 | sorting by line number orders the lines and keeps exactly them |
| Storage.SortIsStable | apps/web/modules/audit/validate.ts:341-342 | lines of one number keep the order they came in |
| Storage.OrderIsRecoveredExactly | apps/web/modules/audit/validate.ts:310-342 | lines come back in their own order from every order of rows exactly when ordered and unambiguous |
| Storage.WrittenDocumentsComeBack | apps/web/modules/audit/validate.ts:297-355 | each written document that is asked for is loaded once with its own lines in order, whatever order rows come back in, exactly when its line numbers say what that order is |
| Storage.WriteDefects | apps/web/modules/ingestion/normalise.ts:174-198 | one row per defect class with its count and first shape; every defect is counted once |
| ValidationRun.ClientRegister.ValidateChunk | apps/web/modules/audit/validate.ts:138-195 | the inner loop takes every document's step up to the first exception |
| ValidationRun.ClientRegister.RunValidation | apps/web/modules/audit/validate.ts:117-214 | the whole run: stored rows, parse errors and the result handed on; an exception leaves the rows of the documents before it |
| ValidationRun.CompletedRunIsSound | apps/web/modules/audit/validate.ts:134-214 | every loaded document is validated or a parse error; rows handed on are the rows stored, each for a listed document |
| ValidationRun.RowsSayTheirFindings | apps/web/modules/audit/validate.ts:165-246 | in a completed run the rows stored and handed on are, in order, one for each finding of each answer, or one for an answer without any, and agree with it in every column |
| ValidationRun.EventsSayTheFindings | apps/web/modules/corpus/record.ts:170-189 | and when the hand-off is recorded, so do the events of the corpus |
| ValidationRun.DocumentsSayWhatWasLoaded | apps/web/modules/audit/validate.ts:165-175 | the documents handed to the corpus are those answered, in order, and say what was loaded |
| ValidationRun.RowOutcomes | apps/web/modules/audit/validate.ts:216-246 | rows are warn exactly for warnings, fail for the rest, pass only for an empty list |
| ValidationRun.ChunksCover | apps/web/modules/audit/validate.ts:134-136 | the chunks are the ids in order, none dropped or repeated, at most fifty at a time |
| ValidationRun.CorpusKnowsEveryDocument | apps/web/modules/corpus/record.ts:99-107 | `recordCorpus` never refuses a completed run for a document it does not list |
| ValidationRun.WrittenDocumentsAreLoadedOnce | apps/web/modules/audit/validate.ts:134-136 | a run over written documents loads each exactly once as it was stored, whatever the chunks and the order rows come back in |
| ValidationRun.FindingIsPlanned | apps/web/modules/corpus/record.ts:200-223 | a finding reported for the patterns of a live profile's files names a planned rule, when the two readers read its ids alike |
| ValidationRun.SeededValidationIsAccepted | apps/web/modules/corpus/record.ts:90-223 | once the catalogue is seeded, a completed run of the engine's answers is never refused for a rule or a document the corpus does not know |
| ValidationRun.TimeoutKeepsOutcome | apps/web/lib/validator-client.ts:104-117 | a document's outcome is the same whether or not its first request timed out |
| Tenancy.Transaction | packages/db/transaction.ts:36-57 | database, result and connection after a call whose BEGIN, COMMIT and ROLLBACK may each fail, with or without effect: the callback's own result, or the first error; the rows it wrote exactly when the COMMIT took effect; the connection is released once on every path |
| Tenancy.NextUserSeesNoTenantExactly | packages/db/transaction.ts:41-56 | the next user of a kept connection sees no tenant exactly when no setting meant to last was committed and no transaction with a setting was left open |
| Tenancy.WithTenantAccess | apps/web/modules/tenancy/with-tenant.ts:48-64 | the caller gets the callback's own result unless BEGIN failed or the answer to COMMIT was an error; an access whose COMMIT takes effect leaves the callback's rows and exactly one log row, its own, and any other leaves nothing; a result without a log row means the callback went on after a statement that aborted the transaction; the next user sees the tenant only when ROLLBACK failed to reach the server and the pool kept the connection |
| Tenancy.AccessIsARun | apps/web/modules/tenancy/with-tenant.ts:48-64 | a call, whatever fails, is a run of BEGIN, setting, log row, the callback's statements, COMMIT and ROLLBACK, possible among whatever all other connections do, to the same database, connection and result |
| Tenancy.InsertDoes | packages/db/policies/003_client_data_rls.sql:35-50 | an inserted row is there for the transaction and after its COMMIT, unless the policy refuses it; nothing else changes |
| Tenancy.UpdateDoes | packages/db/policies/003_client_data_rls.sql:35-50 | an update changes only a row its tenant sees, to a row of its own |
| Tenancy.DeleteDoes | packages/db/policies/003_client_data_rls.sql:35-50 | a delete removes only a row its tenant sees |
| Tenancy.CleanExactlyWhenNothingLeaks | packages/db/transaction.ts:41-56 | over every run, every connection is clean at every time exactly when no step commits a lasting setting or leaves a transaction with a setting open on a connection the pool keeps |
| Tenancy.NoConnectionCarriesATenant | apps/web/modules/tenancy/with-tenant.ts:48-64 | with settings for the transaction only, and failed ROLLBACKs that reached the server or cost the connection, no connection carries a tenant beyond its transaction |
| Tenancy.FailedRollbackIsReused | packages/db/transaction.ts:46-56 | a run in which the next caller on the connection reads another tenant's row and commits its log row |
| Tenancy.LastingSettingLeaks | apps/web/modules/tenancy/with-tenant.ts:52-54 | a run in which a plain SET survives its COMMIT and the next caller reads the tenant's row |
| Tenancy.RunReadsOwn | packages/db/policies/003_client_data_rls.sql:35-50 | over every interleaving, whatever a call reads is its own tenant's |
| Tenancy.ReadsAreLogged | apps/web/modules/tenancy/with-tenant.ts:48-64 | a transaction that has reached its callback has its log row pending |
| Tenancy.OtherTenantsRowsStay | packages/db/policies/003_client_data_rls.sql:35-50 | a step of one tenant, or of none, leaves every other tenant's rows as they are |
| Tenancy.OneLogRowPerCommittedAccess | apps/web/modules/tenancy/with-tenant.ts:48-64 | the log is exactly one row per access whose COMMIT took effect, in that order, whatever the callers were told |
| Tenancy.OwnStepsAlone | packages/db/policies/003_client_data_rls.sql:35-50 | a tenant's steps are possible without everybody else's and give it the same |
| Tenancy.NonInterference | apps/web/modules/tenancy/with-tenant.ts:48-64 | two runs of careful steps that start alike for a tenant and contain the same steps of it give it the same answers, results, rows and log |
| Tabular.HeaderMapIs | apps/web/modules/ingestion/extractors/tabular.ts:60-71 | the header map is the recognised headers, each once, in file order |
| Tabular.BuildHeaderMap | apps/web/modules/ingestion/extractors/tabular.ts:60-71 | the loop that fills the map |
| Tabular.LastFilledWins | apps/web/modules/ingestion/extractors/tabular.ts:73-80 | of several headers for one column the last that is filled in gives the cell |
| Tabular.ReadRow | apps/web/modules/ingestion/extractors/tabular.ts:73-80 | the loop that fills a row |
| Tabular.ExtractTabular | apps/web/modules/ingestion/extractors/tabular.ts:96-250 | the fold over the rows and then over the drafts |
| Tabular.ExtractRow | apps/web/modules/ingestion/extractors/tabular.ts:121-181 | one row: rejected with a defect, skipped, or appended as a line |
| Tabular.ReadLine | apps/web/modules/ingestion/extractors/tabular.ts:152-180 | the line of an accepted row and the defects it is marked with |
| Tabular.FinishDrafts | apps/web/modules/ingestion/extractors/tabular.ts:183-249 | one document per draft whose type is known, and the drafts' defects |
| Tabular.DraftsAreIndependent | apps/web/modules/ingestion/extractors/tabular.ts:119-181 | however rows interleave, each draft is that of its invoice's own rows |
| Tabular.GroupingIsIndependent | apps/web/modules/ingestion/extractors/tabular.ts:96-250 | each invoice's document is the one extracted from its rows alone, up to the source reference |
| Tabular.EveryRowIsAccountedFor | apps/web/modules/ingestion/extractors/tabular.ts:121-181 | every row is exactly one of a line of one draft, a rejected row with one defect, and a header-only repeat |
| Tabular.RowsAreLines | apps/web/modules/ingestion/extractors/tabular.ts:148-180 | an accepted row is the line of its invoice whose position is the number of that invoice's accepted rows before it, and every line is such a row's |
| Tabular.EveryDraftHasALine | apps/web/modules/ingestion/extractors/tabular.ts:148-180 | no draft is without a line |
| Tabular.RejectedRowsLeaveNoTrace | apps/web/modules/ingestion/extractors/tabular.ts:127-146 | whichever rejected rows are removed, drafts and their order are the same |
| Tabular.DocumentsWithoutRejected | apps/web/modules/ingestion/extractors/tabular.ts:183-249 | and so are the documents |
| Tabular.DocumentsSayWhatTheirRowsSay | apps/web/modules/ingestion/extractors/tabular.ts:119-246 | each line of each document says, field by field, what its own row holds in the last filled-in cell of each column, and the header and reference are those of the invoice's first accepted row |
| Tabular.DraftIsMarkedExactly | apps/web/modules/ingestion/extractors/tabular.ts:183-217 | a draft is refused exactly when its type is no document type, and else marked exactly for a scenario that is none, a missing tax number and lines without any tax category |
| Tabular.DefectsOfAFile | apps/web/modules/ingestion/extractors/tabular.ts:119-217 | the defects of a file are those of its rows, then those of its drafts in order of first appearance |
| Tabular.LineIsMarkedExactly | apps/web/modules/ingestion/extractors/tabular.ts:152-171 | a line is marked exactly for an amount in an unknown currency and a unit that is no code, with the shape of the offending value and never the value |
| Tabular.RejectedRowIsMarked | apps/web/modules/ingestion/extractors/tabular.ts:125-146 | a rejected row is marked once, an unreadable one without a shape |
| Tabular.FateExactly | apps/web/modules/ingestion/extractors/tabular.ts:125-150 | what a row must hold to be accepted and to be a line |
| Tabular.InvoiceNumberIsNeeded | apps/web/modules/ingestion/extractors/tabular.ts:101-112 | a file without a column for the invoice number gives one defect and nothing else |
| Tabular.SeparatorsCountForNothing | apps/web/modules/ingestion/extractors/tabular.ts:55-71 | white space, underscores, hyphens and full stops in a header count for nothing |
| XmlText.EscapeIsOnePass | apps/web/modules/mapping/ubl.ts:66-72 | the five replacements in their order are the one-pass escaping |
| XmlText.ReadEscaped | apps/web/modules/mapping/ubl.ts:66-72 | escaped text reads back as the text |
| XmlText.EolIsIdentity | apps/validator/src/validator/parsers/ubl.py:118-139 | a value survives line-break normalisation exactly when it has no carriage return |
| XmlText.PrintedDocumentReadsBack | apps/web/modules/mapping/ubl.ts:74-76 | a printed element reads back as itself, up to line breaks and white space in attributes, exactly when every character is allowed in XML |
| XmlText.PrintIsLegalExactly | apps/web/modules/mapping/ubl.ts:66-76 | that is so exactly when every text and attribute value to be printed is made of allowed characters |
| UblNames.TagOfText | apps/validator/src/validator/parsers/ubl.py:38-79 | the element names of printer and parser are names and no two share one |
| Namespaces.TagByNamespace | apps/validator/src/validator/parsers/ubl.py:31-36 | an element has one tag under every prefix bound to its namespace, the default namespace included, and no known tag outside the two namespaces |
| Namespaces.LastDeclarationCounts | apps/validator/src/validator/parsers/ubl.py:31-36 | the namespace of a prefix is the last one declared for it, or else the enclosing one |
| Namespaces.AttributeByNamespace | apps/validator/src/validator/parsers/ubl.py:178-185 | an attribute of a namespace is never taken for one without |
| Namespaces.ResolvesExactly | apps/validator/src/validator/parsers/ubl.py:147-151 | names resolve unless some element or attribute has a prefix that is not declared |
| UblTree.DocumentValid | apps/web/modules/mapping/ubl.ts:114-201 | a printed document is made of known element names only |
| UblPrinter.TaxCategoryPart | apps/web/modules/mapping/ubl.ts:80-86 | `taxCategory` prints the tax category element |
| UblPrinter.PartyPart | apps/web/modules/mapping/ubl.ts:88-106 | `party` prints the party element with the parts that are there |
| UblPrinter.TaxPart | apps/web/modules/mapping/ubl.ts:149-160 | the tax total, its subtotal only beside a line extension amount |
| UblPrinter.TotalsPart | apps/web/modules/mapping/ubl.ts:162-173 | the monetary totals that are there |
| UblPrinter.LinePart | apps/web/modules/mapping/ubl.ts:175-194 | one line |
| UblPrinter.ToUbl | apps/web/modules/mapping/ubl.ts:114-201 | throws exactly for a blank specification identifier or an amount in an unknown currency; otherwise prints the document |
| UblParser.Parse | apps/validator/src/validator/parsers/ubl.py:142-207 | `parse`: the terms, lines and subtotals of an invoice or credit note, its elements or a parse error |
| UblParser.ResolvesBack | apps/validator/src/validator/parsers/ubl.py:31-36 | printed elements below the root resolve to the elements they were printed from wherever the two namespaces are bound to their prefixes |
| UblParser.PrefixesDoNotMatter | apps/validator/src/validator/parsers/ubl.py:135-207 | texts whose documents differ in prefixes alone parse alike |
| UblParser.ParseErrorExactly | apps/validator/src/validator/parsers/ubl.py:147-168 | parsing fails exactly on text that is not well formed, a prefix that is not declared, or a root that is neither `Invoice` nor `CreditNote` by local name |
| UblParser.FindIsTheFirst | apps/validator/src/validator/parsers/ubl.py:135-139 | a path finds an element whenever it leads to one, and the first in document order |
| UblParser.HeaderTerm | apps/validator/src/validator/parsers/ubl.py:45-70 | every header term of a printed document is the canonical value printed for it |
| UblParser.LineParses | apps/validator/src/validator/parsers/ubl.py:72-79 | a printed line parses to its terms, quantity and unit |
| UblParser.ParsePrint | apps/validator/src/validator/parsers/ubl.py:142-207 | parsing the printed text gives every term, line and subtotal back in order, null as absent and "" as empty, exactly when every character is allowed in XML |
| UblParser.PrintedIsLegalExactly | apps/web/modules/mapping/ubl.ts:114-201 | which a caller can tell from the values before printing |
| UblParser.PlainTermsComeBack | apps/validator/src/validator/parsers/ubl.py:135-139 | terms without carriage returns come back unchanged, and a term is absent exactly when it was null |
| UblParser.AmountsComeBack | apps/web/modules/mapping/ubl.ts:77-78 | a printed amount reads back through `toMinor` as its minor units |
| UblParser.ParsedAmountsAreExact | apps/web/modules/mapping/ubl.ts:149-173 | every header amount of the parsed document is exactly the canonical one |
| UblParser.ParsedLineAmountsAreExact | apps/web/modules/mapping/ubl.ts:184-186 | and so is every line amount |

## Left out

- SubstitutionKeepsMeaning: values are taken to be free of backslashes, which `re.sub` would read as a template; an expression that itself binds a let's name (`for $rate in ...`), white space after the `$`, a variable with a namespace prefix and `Q{...}` literals are not modelled. A value counts as the same wherever it stands, so one that depends on the focus must not be used inside a predicate or step that changes it.
- SubFromIsReplace: that the bindings fit is stated as sufficient for the whole sequence; it is necessary for a single replacement (SubIsReplaceExactly) and for the names (NamesSurviveExactly).
- MutualExclusion: the ledger only; effects of a body that committed something before it crashed may be repeated.
- DrainQueues: retries promoted to ready during a slice, other producers, and errors of `boss.complete` and `boss.fail` are not modelled.
- RunValidation: the rows of each document are committed on their own, so the run is not atomic across documents; `ublSpecIdentifiers` throwing and the enqueued follow-up job are not modelled.
- RunsInOrderOnce: the engine is modelled from the end of its constructor on; the ten-second limit of the final join and interpreter exit are not modelled.
- WithTenantAccess: the callback is taken to leave the tenant setting and the access log alone, as callers of the repository do.
- AccessIsARun: a setting or log-row statement that fails is a step of the interleavings (`StatementFails`) but not a fault of the one call; the callback is a program that ends within the row ids drawn for it.
- CallIsASchedule: application and database are taken to read one clock, and a call's readings to be in order.
- Transaction: whether the pool keeps a connection whose ROLLBACK failed, and whether that ROLLBACK reached the server, are inputs; a connection that breaks while it is idle is not modelled.
- CompletedIsFinalExactly: a `failed` update whose answer is lost is the same step as one that is answered, because both rethrow.
- ToUbl: only the text is modelled, as Unicode scalar values; its encoding to UTF-8 and base64 is not.
- RecordEffect: one call at a time; two transactions that insert the same key concurrently are not modelled. CHECK constraints and column widths are taken to hold by the types.
- NonInterference: stated for steps with transaction-local settings and ROLLBACKs that reach the server or cost the connection, because `FailedRollbackIsReused` and `LastingSettingLeaks` break it otherwise; isolation below statement level, row locks, sequences and timing are not modelled; ids are drawn afresh, and in interleavings a callback lets the error of an aborted statement through.
- GroupingIsIndependent: `toLowerCase` and `Number` are parameters, so a line number that is not a number is outside the model; sums of line amounts are exact, not rounded doubles.
- WrittenDocumentsComeBack: the database's spelling of quantities, rates and dates is a parameter.
- Parse: the XML reader covers start and end tags, attributes in double quotes, character data and the five predefined entities after the printer's declaration line; empty-element tags, white space between elements or inside tags, comments, CDATA, processing instructions, other declarations and entities, single-quoted attributes, mixed content, names outside ASCII, the rules for the reserved prefixes, for names with two colons and for repeated attributes, and the parser's size limits are not modelled.
- SeededValidationIsAccepted: that the patterns hold the compiled rules is a condition; the compilation of one assertion is modelled in SeedPlan for what the seeder reads and in Lets for its test, not as one function.
- MinorRoundTrip: integers, not doubles; negative zero and the exponent notation of numbers from 10^21 on are not modelled.
- DerivationsAgree: printable ASCII only, where UTF-16 and Unicode lengths are the same.
- BackstopIsUnreachable: the Unicode tables behind `\d`, `\w`, `isdigit` and `isspace` are parameters with the ASCII facts they must satisfy.
- Hash and cipher functions: only the text before hashing is modelled.
- XPath evaluation, path normalisation and code-list token replacement in the engine: match and test results are parameters.
- CSV and spreadsheet readers, Tally extraction, the object store, authentication, logging, environment reading and pages are not modelled.
- Scores, coverage, retention, specification identifiers and line-count buckets beyond the column they fill: a reading of a few branches settles them.
