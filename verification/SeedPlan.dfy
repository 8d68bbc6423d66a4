/**
 * Which rules the catalogue seeder plans to record (packages/db/scripts/seed-rules.ts), against which
 * rules the engine can put in a finding (apps/validator/src/validator/engine.py, lines 222-426): two
 * readers of the same Schematron files.
 */
module SeedPlan {
  import opened Base

  const SCH_NS := "http://purl.oclc.org/dsdl/schematron"
  const CDL_NS := "https://compliance-data-layer.dev/schematron-extensions/v1"

  const SEVERITIES := ["fatal", "error", "warning"]

  const FAILURE_CLASSES := [
    "missing_mandatory", "invalid_code", "format_mismatch", "arithmetic_mismatch", "identifier_invalid",
    "cardinality", "cross_field_dependency", "encoding", "date_logic", "rounding"]

  datatype Attr = Attr(ns: string, local: string, value: string)

  datatype Xml = Text(text: string) | Elem(ns: string, local: string, attrs: seq<Attr>, kids: seq<Xml>)

  // ---------- The seeder: local names only, wherever an assertion stands ----------

  datatype SeedError =
    | NoId | BadFlag | NoFailureClass | BadFailureClass | NoText
    | NoOwnerDirectory | NoOwnerEntry | OwnerQuarantined | DuplicateRuleIds

  datatype ExtractedRule = ExtractedRule(
    ruleId: string, nativeRuleCode: string, severity: string, businessTerm: Option<string>,
    xpathContext: Option<string>, failureClass: string, assertText: string, source: string)

  /** Namespace prefixes are removed, so a later attribute with the same local name replaces an earlier one. */
  function LastLocal(attrs: seq<Attr>, name: string): Option<string> {
    if attrs == [] then None
    else if attrs[|attrs| - 1].local == name then Some(attrs[|attrs| - 1].value)
    else LastLocal(attrs[..|attrs| - 1], name)
  }

  /** `attr`: the empty string reads as absent. */
  function SeedAttr(attrs: seq<Attr>, name: string): Option<string> {
    var v := LastLocal(attrs, name);
    if v == Some("") then None else v
  }

  function OrElse(o: Option<string>, other: string): string {
    if o.Some? then o.value else other
  }

  function TextOf(nodes: seq<Xml>): string {
    if nodes == [] then ""
    else (match nodes[0]
          case Text(t) => t
          case Elem(_, _, _, kids) => TextOf(kids)) + TextOf(nodes[1..])
  }

  function ToRule(attrs: seq<Attr>, kids: seq<Xml>, context: Option<string>, source: string, trim: string -> string)
    : Result<ExtractedRule, SeedError>
  {
    var id := SeedAttr(attrs, "id");
    var flag := OrElse(SeedAttr(attrs, "flag"), "error");
    var failureClass := SeedAttr(attrs, "failure-class");
    var text := trim(TextOf(kids));
    if id.None? then Err(NoId)
    else if flag !in SEVERITIES then Err(BadFlag)
    else if failureClass.None? then Err(NoFailureClass)
    else if failureClass.value !in FAILURE_CLASSES then Err(BadFailureClass)
    else if text == "" then Err(NoText)
    else Ok(ExtractedRule(id.value, OrElse(SeedAttr(attrs, "native-code"), id.value), flag,
                          SeedAttr(attrs, "business-term"), context, failureClass.value, text, source))
  }

  predicate IsAssertion(x: Xml) {
    x.Elem? && (x.local == "assert" || x.local == "report")
  }

  function ContextBelow(x: Xml, context: Option<string>): Option<string>
    requires x.Elem?
  {
    if x.local == "rule" && SeedAttr(x.attrs, "context").Some? then SeedAttr(x.attrs, "context") else context
  }

  function Join<T>(a: Result<seq<T>, SeedError>, b: Result<seq<T>, SeedError>): Result<seq<T>, SeedError> {
    match a
    case Err(e) => Err(e)
    case Ok(x) => match b
                  case Err(e) => Err(e)
                  case Ok(y) => Ok(x + y)
  }

  function Single<T>(r: Result<T, SeedError>): Result<seq<T>, SeedError> {
    match r
    case Err(e) => Err(e)
    case Ok(x) => Ok([x])
  }

  /** What `walk` pushes for these nodes. */
  function Walk(nodes: seq<Xml>, context: Option<string>, source: string, trim: string -> string)
    : Result<seq<ExtractedRule>, SeedError>
  {
    if nodes == [] then Ok([])
    else if nodes[0].Text? then Walk(nodes[1..], context, source, trim)
    else
      var x := nodes[0];
      var below := ContextBelow(x, context);
      var own := if IsAssertion(x) then Single(ToRule(x.attrs, x.kids, below, source, trim)) else Ok([]);
      Join(Join(own, Walk(x.kids, below, source, trim)), Walk(nodes[1..], context, source, trim))
  }

  /** `walk`, pushing onto `out`. */
  method WalkInto(nodes: seq<Xml>, context: Option<string>, source: string, trim: string -> string, out: seq<ExtractedRule>)
    returns (r: Result<seq<ExtractedRule>, SeedError>)
    ensures r == Join(Ok(out), Walk(nodes, context, source, trim))
    decreases nodes
  {
    var pushed := out;
    assert nodes[0..] == nodes;
    var i := 0;
    while i < |nodes|
      invariant 0 <= i <= |nodes|
      invariant Join(Ok(pushed), Walk(nodes[i..], context, source, trim)) == Join(Ok(out), Walk(nodes, context, source, trim))
      decreases |nodes| - i
    {
      ghost var rest := Walk(nodes[i + 1..], context, source, trim);
      assert nodes[i..][0] == nodes[i] && nodes[i..][1..] == nodes[i + 1..];
      match nodes[i] {
        case Text(_) =>
        case Elem(_, _, attrs, kids) =>
          var below := ContextBelow(nodes[i], context);
          ghost var own := if IsAssertion(nodes[i]) then Single(ToRule(attrs, kids, below, source, trim)) else Ok([]);
          JoinTwice(pushed, own, Walk(kids, below, source, trim), rest);
          if IsAssertion(nodes[i]) {
            var rule := ToRule(attrs, kids, below, source, trim);
            if rule.Err? {
              return Err(rule.error);
            }
            pushed := pushed + [rule.value];
          } else {
            assert pushed + [] == pushed;
          }
          var walked := WalkInto(kids, below, source, trim, pushed);
          if walked.Err? {
            return walked;
          }
          pushed := walked.value;
      }
      i := i + 1;
    }
    assert nodes[i..] == [] && pushed + [] == pushed;
    return Ok(pushed);
  }

  lemma JoinTwice<T>(pushed: seq<T>, own: Result<seq<T>, SeedError>, below: Result<seq<T>, SeedError>, rest: Result<seq<T>, SeedError>)
    ensures Join(Ok(pushed), Join(Join(own, below), rest)) == Join(Join(Join(Ok(pushed), own), below), rest)
  {
    if own.Ok? && below.Ok? && rest.Ok? {
      assert pushed + ((own.value + below.value) + rest.value) == ((pushed + own.value) + below.value) + rest.value;
    }
  }

  function ExtractRules(root: Xml, source: string, trim: string -> string): Result<seq<ExtractedRule>, SeedError> {
    Walk([root], None, source, trim)
  }

  // ---------- The plan ----------

  datatype RegistryEntry = RegistryEntry(
    specId: string, jurisdiction: string, version: string, schematron: seq<string>, unavailable: Option<string>)

  datatype PlannedRule = PlannedRule(rule: ExtractedRule, specId: string)

  datatype Specification = Specification(specId: string, jurisdiction: string, name: string, version: string)

  datatype Skip = Skip(specId: string, reason: string)

  datatype Plan = Plan(specifications: seq<Specification>, rules: seq<PlannedRule>, skipped: seq<Skip>)

  /** The text before the first slash, which must be there and not be empty. */
  function OwningSpecOf(path: string): Result<string, SeedError> {
    var n := FirstSlash(path);
    if n == 0 || n == |path| then Err(NoOwnerDirectory) else Ok(path[..n])
  }

  function FirstSlash(s: string): (n: nat)
    ensures n <= |s| && '/' !in s[..n] && (n < |s| ==> s[n] == '/')
  {
    if s == "" || s[0] == '/' then 0
    else
      var m := FirstSlash(s[1..]);
      assert s[..m + 1] == [s[0]] + s[1..][..m];
      m + 1
  }

  /** `new Map(...)`: the last entry with the id. */
  function ById(entries: seq<RegistryEntry>, specId: string): (e: Option<RegistryEntry>)
    ensures e.Some? ==> e.value in entries && e.value.specId == specId
  {
    if entries == [] then None
    else if entries[|entries| - 1].specId == specId then Some(entries[|entries| - 1])
    else ById(entries[..|entries| - 1], specId)
  }

  /** What the planning loops have gathered. */
  datatype Draft = Draft(skipped: seq<Skip>, owners: set<string>, seenFiles: set<string>, rules: seq<PlannedRule>)

  /** The files, and the library functions the planner uses: trimming and sorting. */
  datatype Library = Library(parse: string -> Xml, trim: string -> string, sort: set<string> -> seq<string>)

  ghost predicate Sorts(lib: Library) {
    forall s: set<string> ::
      (forall x :: x in lib.sort(s) <==> x in s)
      && forall i, j :: 0 <= i < j < |lib.sort(s)| ==> lib.sort(s)[i] != lib.sort(s)[j]
  }

  function Owned(rules: seq<ExtractedRule>, owner: string): (p: seq<PlannedRule>)
    ensures |p| == |rules| && forall i :: 0 <= i < |p| ==> p[i] == PlannedRule(rules[i], owner)
  {
    seq(|rules|, i requires 0 <= i < |rules| => PlannedRule(rules[i], owner))
  }

  function AddPath(entries: seq<RegistryEntry>, lib: Library, d: Draft, path: string): Result<Draft, SeedError> {
    var owner := OwningSpecOf(path);
    if owner.Err? then Err(owner.error)
    else if ById(entries, owner.value).None? then Err(NoOwnerEntry)
    else if ById(entries, owner.value).value.unavailable.Some? then Err(OwnerQuarantined)
    else
      var d' := d.(owners := d.owners + {owner.value});
      if path in d.seenFiles then Ok(d')
      else match ExtractRules(lib.parse(path), path, lib.trim)
           case Err(e) => Err(e)
           case Ok(rules) => Ok(d'.(seenFiles := d.seenFiles + {path}, rules := d.rules + Owned(rules, owner.value)))
  }

  function AddPaths(entries: seq<RegistryEntry>, lib: Library, d: Draft, paths: seq<string>): Result<Draft, SeedError>
    decreases paths
  {
    if paths == [] then Ok(d)
    else match AddPath(entries, lib, d, paths[0])
         case Err(e) => Err(e)
         case Ok(d') => AddPaths(entries, lib, d', paths[1..])
  }

  function AddEntries(entries: seq<RegistryEntry>, lib: Library, d: Draft, todo: seq<RegistryEntry>): Result<Draft, SeedError>
    decreases todo
  {
    if todo == [] then Ok(d)
    else if todo[0].unavailable.Some? then
      AddEntries(entries, lib, d.(skipped := d.skipped + [Skip(todo[0].specId, todo[0].unavailable.value)]), todo[1..])
    else match AddPaths(entries, lib, d, todo[0].schematron)
         case Err(e) => Err(e)
         case Ok(d') => AddEntries(entries, lib, d', todo[1..])
  }

  predicate DistinctIds(rules: seq<PlannedRule>) {
    forall i, j :: 0 <= i < j < |rules| ==> rules[i].rule.ruleId != rules[j].rule.ruleId
  }

  function SpecificationOf(entry: RegistryEntry): Specification {
    Specification(entry.specId, entry.jurisdiction, entry.specId, entry.version)
  }

  function Specifications(entries: seq<RegistryEntry>, owners: seq<string>): Result<seq<Specification>, SeedError> {
    if owners == [] then Ok([])
    else if ById(entries, owners[0]).None? then Err(NoOwnerEntry)
    else Join(Ok([SpecificationOf(ById(entries, owners[0]).value)]), Specifications(entries, owners[1..]))
  }

  function Finish(entries: seq<RegistryEntry>, lib: Library, d: Draft): Result<Plan, SeedError> {
    if !DistinctIds(d.rules) then Err(DuplicateRuleIds)
    else match Specifications(entries, lib.sort(d.owners))
         case Err(e) => Err(e)
         case Ok(specs) => Ok(Plan(specs, d.rules, d.skipped))
  }

  function Planned(entries: seq<RegistryEntry>, lib: Library): Result<Plan, SeedError> {
    match AddEntries(entries, lib, Draft([], {}, {}, []), entries)
    case Err(e) => Err(e)
    case Ok(d) => Finish(entries, lib, d)
  }

  /** Every owner gathered so far has a live registry entry. */
  ghost predicate OwnersLive(entries: seq<RegistryEntry>, owners: set<string>) {
    forall o :: o in owners ==> ById(entries, o).Some? && ById(entries, o).value.unavailable.None?
  }

  /** The inner loop of `buildPlan`: the paths of one live entry. */
  method PlanPaths(entries: seq<RegistryEntry>, lib: Library, d: Draft, paths: seq<string>) returns (r: Result<Draft, SeedError>)
    requires OwnersLive(entries, d.owners)
    ensures r == AddPaths(entries, lib, d, paths)
    ensures r.Ok? ==> OwnersLive(entries, r.value.owners)
  {
    hide Walk, Join, OwningSpecOf;
    var owners, seenFiles, rules := d.owners, d.seenFiles, d.rules;
    assert paths[0..] == paths;
    var p := 0;
    while p < |paths|
      invariant 0 <= p <= |paths|
      invariant AddPaths(entries, lib, Draft(d.skipped, owners, seenFiles, rules), paths[p..]) == AddPaths(entries, lib, d, paths)
      invariant OwnersLive(entries, owners)
    {
      var path := paths[p];
      assert paths[p..][0] == path && paths[p..][1..] == paths[p + 1..];
      var owner := OwningSpecOf(path);
      if owner.Err? {
        return Err(owner.error);
      }
      var ownerEntry := ById(entries, owner.value);
      if ownerEntry.None? {
        return Err(NoOwnerEntry);
      }
      if ownerEntry.value.unavailable.Some? {
        return Err(OwnerQuarantined);
      }
      owners := owners + {owner.value};
      if path !in seenFiles {
        seenFiles := seenFiles + {path};
        var extracted := WalkInto([lib.parse(path)], None, path, lib.trim, []);
        JoinNothing(ExtractRules(lib.parse(path), path, lib.trim));
        if extracted.Err? {
          return Err(extracted.error);
        }
        rules := rules + Owned(extracted.value, owner.value);
      }
      p := p + 1;
    }
    assert paths[p..] == [];
    return Ok(Draft(d.skipped, owners, seenFiles, rules));
  }

  method ListSpecifications(entries: seq<RegistryEntry>, sorted: seq<string>) returns (specifications: seq<Specification>)
    requires forall o :: o in sorted ==> ById(entries, o).Some?
    ensures Specifications(entries, sorted) == Ok(specifications)
  {
    specifications := [];
    assert sorted[0..] == sorted;
    var s := 0;
    while s < |sorted|
      invariant 0 <= s <= |sorted|
      invariant Join(Ok(specifications), Specifications(entries, sorted[s..])) == Join(Ok([]), Specifications(entries, sorted))
    {
      assert sorted[s..][0] == sorted[s] && sorted[s..][1..] == sorted[s + 1..] && sorted[s] in sorted;
      var entry := ById(entries, sorted[s]);
      JoinTwice(specifications, Ok([SpecificationOf(entry.value)]), Ok([]), Specifications(entries, sorted[s + 1..]));
      JoinTwice([], Ok([SpecificationOf(entry.value)]), Ok([]), Specifications(entries, sorted[s + 1..]));
      assert [SpecificationOf(entry.value)] + [] == [SpecificationOf(entry.value)];
      specifications := specifications + [SpecificationOf(entry.value)];
      assert specifications + [] == specifications;
      s := s + 1;
    }
    assert sorted[s..] == [] && specifications + [] == specifications;
    JoinNothing(Specifications(entries, sorted));
  }

  /** `buildPlan`. Its last check, that every owner has a registry entry, never fails. */
  method BuildPlan(entries: seq<RegistryEntry>, lib: Library) returns (r: Result<Plan, SeedError>)
    requires Sorts(lib)
    ensures r == Planned(entries, lib)
  {
    hide AddPath, AddPaths, Join, Specifications, DistinctIds;
    var d := Draft([], {}, {}, []);
    ghost var goal := AddEntries(entries, lib, d, entries);
    assert entries[0..] == entries;
    var e := 0;
    while e < |entries|
      invariant 0 <= e <= |entries|
      invariant AddEntries(entries, lib, d, entries[e..]) == goal
      invariant OwnersLive(entries, d.owners)
    {
      var entry := entries[e];
      assert entries[e..][0] == entry && entries[e..][1..] == entries[e + 1..];
      if entry.unavailable.Some? {
        d := d.(skipped := d.skipped + [Skip(entry.specId, entry.unavailable.value)]);
      } else {
        var added := PlanPaths(entries, lib, d, entry.schematron);
        if added.Err? {
          return Err(added.error);
        }
        d := added.value;
      }
      e := e + 1;
    }
    assert entries[e..] == [];
    if !DistinctIds(d.rules) {
      return Err(DuplicateRuleIds);
    }
    var specifications := ListSpecifications(entries, lib.sort(d.owners));
    return Ok(Plan(specifications, d.rules, d.skipped));
  }

  lemma JoinNothing<T>(r: Result<seq<T>, SeedError>)
    ensures Join(Ok([]), r) == r
  {
    assert r.Ok? ==> [] + r.value == r.value;
  }

  // ---------- The engine: its own namespaces, its own shape ----------

  datatype EngineError = Unsupported | CompileError

  /** What a compiled assertion keeps of its identity and classification. */
  datatype EngineRule = EngineRule(
    ruleId: string, nativeRuleCode: Option<string>, severity: string, businessTerm: Option<string>, failureClass: Option<string>)

  /** The engine's library functions and its code list check (list, severity, rule id). */
  datatype Engine = Engine(wellFormed: string -> bool, lower: string -> string, codelistOk: (string, string, string) -> bool)

  /** `element.get`. */
  function Get(attrs: seq<Attr>, ns: string, local: string): Option<string> {
    if attrs == [] then None
    else if attrs[0].ns == ns && attrs[0].local == local then Some(attrs[0].value)
    else Get(attrs[1..], ns, local)
  }

  predicate Given(o: Option<string>) {
    o.Some? && o.value != ""
  }

  /** `_compile_assertion`. */
  function Compile(engine: Engine, attrs: seq<Attr>): Result<EngineRule, EngineError> {
    var id := Get(attrs, "", "id");
    var severity := OrElse(Get(attrs, "", "flag"), "error");
    var failureClass := Get(attrs, CDL_NS, "failure-class");
    var codelist := Get(attrs, CDL_NS, "codelist");
    if !Given(id) || !Given(Get(attrs, "", "test")) then Err(Unsupported)
    else if severity !in SEVERITIES then Err(Unsupported)
    else if failureClass.Some? && failureClass.value !in FAILURE_CLASSES then Err(Unsupported)
    else if codelist.Some? && !engine.codelistOk(codelist.value, severity, id.value) then Err(CompileError)
    else if !Given(Get(attrs, CDL_NS, "expected-description")) then Err(Unsupported)
    else Ok(EngineRule(id.value, Get(attrs, CDL_NS, "native-code"), severity, Get(attrs, CDL_NS, "business-term"), failureClass))
  }

  predicate IsSch(x: Xml, local: string) {
    x.Elem? && x.ns == SCH_NS && x.local == local
  }

  const UNSUPPORTED := ["include", "extends", "phase", "diagnostics", "param"]

  predicate HasUnsupported(nodes: seq<Xml>) {
    nodes != [] &&
    ((nodes[0].Elem? && ((nodes[0].ns == SCH_NS && nodes[0].local in UNSUPPORTED) || HasUnsupported(nodes[0].kids)))
     || HasUnsupported(nodes[1..]))
  }

  predicate AllGiven(kids: seq<Xml>, local: string, a: string, b: string) {
    forall i :: 0 <= i < |kids| && IsSch(kids[i], local) ==> Given(Get(kids[i].attrs, "", a)) && Given(Get(kids[i].attrs, "", b))
  }

  function JoinRules(a: Result<seq<EngineRule>, EngineError>, b: Result<seq<EngineRule>, EngineError>)
    : Result<seq<EngineRule>, EngineError>
  {
    match a
    case Err(e) => Err(e)
    case Ok(x) => match b
                  case Err(e) => Err(e)
                  case Ok(y) => Ok(x + y)
  }

  /** The assertions that are children of one rule. */
  function CompileRule(engine: Engine, kids: seq<Xml>): Result<seq<EngineRule>, EngineError> {
    if kids == [] then Ok([])
    else
      JoinRules(
        if !(IsSch(kids[0], "assert") || IsSch(kids[0], "report")) then Ok([])
        else match Compile(engine, kids[0].attrs)
             case Err(e) => Err(e)
             case Ok(r) => Ok([r]),
        CompileRule(engine, kids[1..]))
  }

  /** The rules that are children of one pattern. */
  function CompilePattern(engine: Engine, kids: seq<Xml>): Result<seq<EngineRule>, EngineError> {
    if kids == [] then Ok([])
    else
      JoinRules(
        if !IsSch(kids[0], "rule") then Ok([])
        else if Get(kids[0].attrs, "", "abstract") == Some("true") || !Given(Get(kids[0].attrs, "", "context")) then Err(Unsupported)
        else if !AllGiven(kids[0].kids, "let", "name", "value") then Err(Unsupported)
        else CompileRule(engine, kids[0].kids),
        CompilePattern(engine, kids[1..]))
  }

  function CompilePatterns(engine: Engine, kids: seq<Xml>): Result<seq<EngineRule>, EngineError> {
    if kids == [] then Ok([])
    else
      JoinRules(
        if !IsSch(kids[0], "pattern") then Ok([])
        else if Get(kids[0].attrs, "", "abstract") == Some("true") then Err(Unsupported)
        else CompilePattern(engine, kids[0].kids),
        CompilePatterns(engine, kids[1..]))
  }

  /** `_load_schematron`. Rules without assertions contribute none. */
  function LoadSchematron(engine: Engine, root: Xml): Result<seq<EngineRule>, EngineError> {
    if !IsSch(root, "schema") then Err(Unsupported)
    else if engine.lower(OrElse(Get(root.attrs, "", "queryBinding"), "")) !in ["xslt2", "xslt3"] then Err(Unsupported)
    else if HasUnsupported([root]) then Err(Unsupported)
    else if !AllGiven(root.kids, "ns", "prefix", "uri") then Err(Unsupported)
    else CompilePatterns(engine, root.kids)
  }

  function LoadAll(engine: Engine, lib: Library, paths: seq<string>): Result<seq<EngineRule>, EngineError> {
    if paths == [] then Ok([])
    else JoinRules(if !engine.wellFormed(paths[0]) then Err(CompileError) else LoadSchematron(engine, lib.parse(paths[0])),
                   LoadAll(engine, lib, paths[1..]))
  }

  /** `compile_ruleset` for the paths in sorted order. */
  function CompileRuleset(engine: Engine, lib: Library, sorted: seq<string>): Result<seq<EngineRule>, EngineError> {
    match LoadAll(engine, lib, sorted)
    case Err(e) => Err(e)
    case Ok(rules) =>
      if exists i, j :: 0 <= i < j < |rules| && rules[i].ruleId == rules[j].ruleId then Err(CompileError) else Ok(rules)
  }

  // ---------- Where the two readers meet ----------

  /** Every assertion element, in document order. */
  function Assertions(nodes: seq<Xml>): seq<Xml> {
    if nodes == [] then []
    else if nodes[0].Text? then Assertions(nodes[1..])
    else (if IsAssertion(nodes[0]) then [nodes[0]] else []) + Assertions(nodes[0].kids) + Assertions(nodes[1..])
  }

  lemma {:induction false} AssertionsAre(nodes: seq<Xml>, e: Xml)
    requires e in Assertions(nodes)
    ensures IsAssertion(e)
  {
    if nodes[0].Text? {
      AssertionsAre(nodes[1..], e);
    } else if e in Assertions(nodes[0].kids) {
      AssertionsAre(nodes[0].kids, e);
    } else if e in Assertions(nodes[1..]) {
      AssertionsAre(nodes[1..], e);
    }
  }

  lemma {:induction false} AssertionsBelow(nodes: seq<Xml>, k: int, e: Xml)
    requires 0 <= k < |nodes| && nodes[k].Elem?
    requires e in Assertions(nodes[k].kids) || (e == nodes[k] && IsAssertion(e))
    ensures e in Assertions(nodes)
  {
    if k > 0 {
      AssertionsBelow(nodes[1..], k - 1, e);
    }
  }

  /** The seeder extracts a rule from every assertion element, wherever it stands. */
  lemma {:induction false} WalkExtracts(nodes: seq<Xml>, context: Option<string>, source: string, trim: string -> string, e: Xml)
    returns (below: Option<string>)
    requires Walk(nodes, context, source, trim).Ok? && e in Assertions(nodes) && IsAssertion(e)
    ensures ToRule(e.attrs, e.kids, below, source, trim).Ok?
    ensures ToRule(e.attrs, e.kids, below, source, trim).value in Walk(nodes, context, source, trim).value
    decreases nodes
  {
    if nodes[0].Text? {
      below := WalkExtracts(nodes[1..], context, source, trim, e);
    } else {
      below := ContextBelow(nodes[0], context);
      if e in Assertions(nodes[0].kids) {
        below := WalkExtracts(nodes[0].kids, below, source, trim, e);
      } else if e in Assertions(nodes[1..]) {
        below := WalkExtracts(nodes[1..], context, source, trim, e);
      } else {
        assert e == nodes[0];
      }
    }
  }

  /** And every extracted rule comes from one. */
  lemma {:induction false} WalkComesFrom(nodes: seq<Xml>, context: Option<string>, source: string, trim: string -> string, x: ExtractedRule)
    returns (e: Xml, below: Option<string>)
    requires Walk(nodes, context, source, trim).Ok? && x in Walk(nodes, context, source, trim).value
    ensures e in Assertions(nodes) && IsAssertion(e) && ToRule(e.attrs, e.kids, below, source, trim) == Ok(x)
    decreases nodes
  {
    if nodes[0].Text? {
      e, below := WalkComesFrom(nodes[1..], context, source, trim, x);
    } else {
      below := ContextBelow(nodes[0], context);
      if x in Walk(nodes[0].kids, below, source, trim).value {
        e, below := WalkComesFrom(nodes[0].kids, below, source, trim, x);
        AssertionsBelow(nodes, 0, e);
      } else if x in Walk(nodes[1..], context, source, trim).value {
        e, below := WalkComesFrom(nodes[1..], context, source, trim, x);
        AssertionsTail(nodes, e);
      } else {
        e := nodes[0];
        AssertionsBelow(nodes, 0, e);
      }
    }
  }

  lemma {:induction false} RuleComesFromAssertion(engine: Engine, kids: seq<Xml>, r: EngineRule) returns (e: Xml)
    requires CompileRule(engine, kids).Ok? && r in CompileRule(engine, kids).value
    ensures e in Assertions(kids) && IsAssertion(e) && Compile(engine, e.attrs) == Ok(r)
  {
    if (IsSch(kids[0], "assert") || IsSch(kids[0], "report")) && Compile(engine, kids[0].attrs) == Ok(r) {
      e := kids[0];
      AssertionsBelow(kids, 0, e);
    } else {
      e := RuleComesFromAssertion(engine, kids[1..], r);
      AssertionsTail(kids, e);
    }
  }

  lemma AssertionsTail(nodes: seq<Xml>, e: Xml)
    requires nodes != [] && e in Assertions(nodes[1..])
    ensures e in Assertions(nodes)
  {
  }

  lemma {:induction false} PatternRuleComesFromAssertion(engine: Engine, kids: seq<Xml>, r: EngineRule) returns (e: Xml)
    requires CompilePattern(engine, kids).Ok? && r in CompilePattern(engine, kids).value
    ensures e in Assertions(kids) && IsAssertion(e) && Compile(engine, e.attrs) == Ok(r)
  {
    if IsSch(kids[0], "rule") && r in CompileRule(engine, kids[0].kids).value {
      e := RuleComesFromAssertion(engine, kids[0].kids, r);
      AssertionsBelow(kids, 0, e);
    } else {
      e := PatternRuleComesFromAssertion(engine, kids[1..], r);
      AssertionsTail(kids, e);
    }
  }

  lemma {:induction false} SchemaRuleComesFromAssertion(engine: Engine, kids: seq<Xml>, r: EngineRule) returns (e: Xml)
    requires CompilePatterns(engine, kids).Ok? && r in CompilePatterns(engine, kids).value
    ensures e in Assertions(kids) && IsAssertion(e) && Compile(engine, e.attrs) == Ok(r)
  {
    if IsSch(kids[0], "pattern") && r in CompilePattern(engine, kids[0].kids).value {
      e := PatternRuleComesFromAssertion(engine, kids[0].kids, r);
      AssertionsBelow(kids, 0, e);
    } else {
      e := SchemaRuleComesFromAssertion(engine, kids[1..], r);
      AssertionsTail(kids, e);
    }
  }

  lemma LoadedRuleComesFromAssertion(engine: Engine, root: Xml, r: EngineRule) returns (e: Xml)
    requires LoadSchematron(engine, root).Ok? && r in LoadSchematron(engine, root).value
    ensures e in Assertions([root]) && IsAssertion(e) && Compile(engine, e.attrs) == Ok(r)
  {
    e := SchemaRuleComesFromAssertion(engine, root.kids, r);
    AssertionsBelow([root], 0, e);
  }

  lemma {:induction false} LoadedFrom(engine: Engine, lib: Library, paths: seq<string>, r: EngineRule) returns (path: string)
    requires LoadAll(engine, lib, paths).Ok? && r in LoadAll(engine, lib, paths).value
    ensures path in paths && LoadSchematron(engine, lib.parse(path)).Ok? && r in LoadSchematron(engine, lib.parse(path)).value
  {
    if r in LoadSchematron(engine, lib.parse(paths[0])).value {
      path := paths[0];
    } else {
      path := LoadedFrom(engine, lib, paths[1..], r);
    }
  }

  // ---------- Where they read an attribute alike ----------

  /** Attributes whose local name is the given one stand in one namespace, and there at most once. */
  ghost predicate OnlyIn(attrs: seq<Attr>, ns: string, local: string) {
    && (forall i :: 0 <= i < |attrs| && attrs[i].local == local ==> attrs[i].ns == ns)
    && (forall i, j :: 0 <= i < j < |attrs| ==> !(attrs[i].local == local && attrs[j].local == local))
  }

  lemma {:induction false} SameReading(attrs: seq<Attr>, ns: string, local: string)
    requires OnlyIn(attrs, ns, local)
    ensures LastLocal(attrs, local) == Get(attrs, ns, local)
  {
    if exists i :: 0 <= i < |attrs| && attrs[i].local == local {
      var i :| 0 <= i < |attrs| && attrs[i].local == local;
      GetAt(attrs, ns, local, i);
      LastAt(attrs, local, i);
    } else {
      GetNone(attrs, ns, local);
      LastNone(attrs, local);
    }
  }

  lemma {:induction false} GetAt(attrs: seq<Attr>, ns: string, local: string, i: int)
    requires 0 <= i < |attrs| && attrs[i].local == local && attrs[i].ns == ns
    requires forall j :: 0 <= j < |attrs| && attrs[j].local == local ==> j == i
    ensures Get(attrs, ns, local) == Some(attrs[i].value)
  {
    if i > 0 {
      assert forall j :: 0 <= j < |attrs[1..]| ==> attrs[1..][j] == attrs[j + 1];
      GetAt(attrs[1..], ns, local, i - 1);
    }
  }

  lemma {:induction false} LastAt(attrs: seq<Attr>, local: string, i: int)
    requires 0 <= i < |attrs| && attrs[i].local == local
    requires forall j :: 0 <= j < |attrs| && attrs[j].local == local ==> j == i
    ensures LastLocal(attrs, local) == Some(attrs[i].value)
  {
    if i < |attrs| - 1 {
      LastAt(attrs[..|attrs| - 1], local, i);
    }
  }

  lemma {:induction false} GetNone(attrs: seq<Attr>, ns: string, local: string)
    requires forall j :: 0 <= j < |attrs| ==> attrs[j].local != local
    ensures Get(attrs, ns, local) == None
  {
    if attrs != [] {
      GetNone(attrs[1..], ns, local);
    }
  }

  lemma {:induction false} LastNone(attrs: seq<Attr>, local: string)
    requires forall j :: 0 <= j < |attrs| ==> attrs[j].local != local
    ensures LastLocal(attrs, local) == None
  {
    if attrs != [] {
      LastNone(attrs[..|attrs| - 1], local);
    }
  }

  function NonEmpty(o: Option<string>): Option<string> {
    if Given(o) then o else None
  }

  /** The two readers say the same of a rule. */
  predicate Agrees(r: EngineRule, x: ExtractedRule) {
    && x.ruleId == r.ruleId
    && x.severity == r.severity
    && r.failureClass == Some(x.failureClass)
    && x.nativeRuleCode == OrElse(NonEmpty(r.nativeRuleCode), r.ruleId)
    && x.businessTerm == NonEmpty(r.businessTerm)
  }

  /**
   * The last attribute of each local name says what the attribute in the engine's own namespace says, with the
   * defaults filled in: `error` for the flag, the id for the native code, absent for an empty business term.
   */
  predicate ReadsAlike(attrs: seq<Attr>) {
    var id := Get(attrs, "", "id");
    && LastLocal(attrs, "id") == id
    && OrElse(NonEmpty(LastLocal(attrs, "flag")), "error") == OrElse(Get(attrs, "", "flag"), "error")
    && LastLocal(attrs, "failure-class") == Get(attrs, CDL_NS, "failure-class")
    && (id.Some? ==> OrElse(NonEmpty(LastLocal(attrs, "native-code")), id.value) == OrElse(NonEmpty(Get(attrs, CDL_NS, "native-code")), id.value))
    && NonEmpty(LastLocal(attrs, "business-term")) == NonEmpty(Get(attrs, CDL_NS, "business-term"))
  }

  /** An assertion gets one id from both readers exactly when its last attribute of local name id says what the unprefixed one says. */
  lemma SameIdExactly(engine: Engine, attrs: seq<Attr>, kids: seq<Xml>, context: Option<string>, source: string, trim: string -> string)
    requires Compile(engine, attrs).Ok? && ToRule(attrs, kids, context, source, trim).Ok?
    ensures LastLocal(attrs, "id") == Some(ToRule(attrs, kids, context, source, trim).value.ruleId)
    ensures Get(attrs, "", "id") == Some(Compile(engine, attrs).value.ruleId)
    ensures ToRule(attrs, kids, context, source, trim).value.ruleId == Compile(engine, attrs).value.ruleId
            <==> LastLocal(attrs, "id") == Get(attrs, "", "id")
  {
    hide Get, LastLocal;
  }

  lemma SameRuleExactly(engine: Engine, attrs: seq<Attr>, kids: seq<Xml>, context: Option<string>, source: string, trim: string -> string)
    requires Compile(engine, attrs).Ok? && ToRule(attrs, kids, context, source, trim).Ok?
    ensures Agrees(Compile(engine, attrs).value, ToRule(attrs, kids, context, source, trim).value) <==> ReadsAlike(attrs)
  {
    hide Get, LastLocal;
    assert "" !in SEVERITIES && "" !in FAILURE_CLASSES;
  }

  /** An assertion is read alike when no attribute the readers use has its local name twice. */
  lemma PlainReadsAlike(attrs: seq<Attr>)
    requires OnlyIn(attrs, "", "id") && OnlyIn(attrs, "", "flag") && Get(attrs, "", "flag") != Some("")
    requires OnlyIn(attrs, CDL_NS, "failure-class") && OnlyIn(attrs, CDL_NS, "native-code") && OnlyIn(attrs, CDL_NS, "business-term")
    ensures ReadsAlike(attrs)
  {
    SameReading(attrs, "", "id");
    SameReading(attrs, "", "flag");
    SameReading(attrs, CDL_NS, "failure-class");
    SameReading(attrs, CDL_NS, "native-code");
    SameReading(attrs, CDL_NS, "business-term");
    hide Get, LastLocal, OnlyIn;
  }

  // ---------- What the planning loops keep ----------

  /** The file's rules are planned under its owner, and the owner is listed. */
  ghost predicate Covered(lib: Library, d: Draft, path: string) {
    && OwningSpecOf(path).Ok? && OwningSpecOf(path).value in d.owners
    && ExtractRules(lib.parse(path), path, lib.trim).Ok?
    && forall x :: x in ExtractRules(lib.parse(path), path, lib.trim).value ==>
         PlannedRule(x, OwningSpecOf(path).value) in d.rules
  }

  ghost predicate DraftOk(entries: seq<RegistryEntry>, lib: Library, d: Draft) {
    && OwnersLive(entries, d.owners)
    && (forall path :: path in d.seenFiles ==> Covered(lib, d, path))
    && (forall p :: p in d.rules ==> p.specId in d.owners)
  }

  predicate Grows(d: Draft, d': Draft) {
    d.owners <= d'.owners && d.seenFiles <= d'.seenFiles && d.rules <= d'.rules
  }

  lemma CoveredGrows(lib: Library, d: Draft, d': Draft, path: string)
    requires Covered(lib, d, path) && Grows(d, d')
    ensures Covered(lib, d', path)
  {
    hide ExtractRules, OwningSpecOf;
    forall p | p in d.rules ensures p in d'.rules {
      var i :| 0 <= i < |d.rules| && d.rules[i] == p;
      assert d'.rules[i] == p;
    }
  }

  lemma AddPathOk(entries: seq<RegistryEntry>, lib: Library, d: Draft, path: string)
    requires DraftOk(entries, lib, d) && AddPath(entries, lib, d, path).Ok?
    ensures var d' := AddPath(entries, lib, d, path).value;
            DraftOk(entries, lib, d') && Grows(d, d') && path in d'.seenFiles
  {
    var d' := AddPath(entries, lib, d, path).value;
    var owner := OwningSpecOf(path).value;
    assert Grows(d, d');
    assert OwnersLive(entries, d'.owners);
    if path !in d.seenFiles {
      var rules := ExtractRules(lib.parse(path), path, lib.trim).value;
      forall x | x in rules ensures PlannedRule(x, owner) in d'.rules {
        var i :| 0 <= i < |rules| && rules[i] == x;
        assert d'.rules[|d.rules| + i] == PlannedRule(x, owner);
      }
      assert Covered(lib, d', path);
    }
    forall seen | seen in d'.seenFiles ensures Covered(lib, d', seen) {
      if seen in d.seenFiles {
        CoveredGrows(lib, d, d', seen);
      }
    }
    assert forall p :: p in d'.rules ==> p in d.rules || p.specId == owner;
  }

  lemma {:induction false} AddPathsOk(entries: seq<RegistryEntry>, lib: Library, d: Draft, paths: seq<string>)
    requires DraftOk(entries, lib, d) && AddPaths(entries, lib, d, paths).Ok?
    ensures var d' := AddPaths(entries, lib, d, paths).value;
            DraftOk(entries, lib, d') && Grows(d, d') && forall path :: path in paths ==> path in d'.seenFiles
    decreases paths
  {
    if paths != [] {
      AddPathOk(entries, lib, d, paths[0]);
      hide AddPath, DraftOk;
      AddPathsOk(entries, lib, AddPath(entries, lib, d, paths[0]).value, paths[1..]);
    }
  }

  lemma {:induction false} AddEntriesOk(entries: seq<RegistryEntry>, lib: Library, d: Draft, todo: seq<RegistryEntry>)
    requires DraftOk(entries, lib, d) && AddEntries(entries, lib, d, todo).Ok?
    ensures var d' := AddEntries(entries, lib, d, todo).value;
            && DraftOk(entries, lib, d') && Grows(d, d')
            && forall e, path :: e in todo && e.unavailable.None? && path in e.schematron ==> path in d'.seenFiles
    decreases todo
  {
    if todo != [] {
      if todo[0].unavailable.Some? {
        var d1 := d.(skipped := d.skipped + [Skip(todo[0].specId, todo[0].unavailable.value)]);
        SkipOk(entries, lib, d, d1);
        hide DraftOk;
        AddEntriesOk(entries, lib, d1, todo[1..]);
      } else {
        hide AddPaths, DraftOk;
        AddPathsOk(entries, lib, d, todo[0].schematron);
        AddEntriesOk(entries, lib, AddPaths(entries, lib, d, todo[0].schematron).value, todo[1..]);
      }
    }
  }

  lemma SkipOk(entries: seq<RegistryEntry>, lib: Library, d: Draft, d': Draft)
    requires DraftOk(entries, lib, d) && d' == d.(skipped := d'.skipped)
    ensures DraftOk(entries, lib, d')
  {
    forall path | path in d'.seenFiles ensures Covered(lib, d', path) {
      CoveredGrows(lib, d, d', path);
    }
  }

  /** A file some live profile declares. */
  ghost predicate PlannedFile(entries: seq<RegistryEntry>, path: string) {
    exists e :: e in entries && e.unavailable.None? && path in e.schematron
  }

  /** Every rule gathered so far was extracted from a file some live profile declares. */
  ghost predicate Sourced(entries: seq<RegistryEntry>, lib: Library, rules: seq<PlannedRule>) {
    forall p :: p in rules ==> exists path :: FromFile(entries, lib, p, path)
  }

  ghost predicate FromFile(entries: seq<RegistryEntry>, lib: Library, p: PlannedRule, path: string) {
    PlannedFile(entries, path) && ExtractRules(lib.parse(path), path, lib.trim).Ok?
    && p.rule in ExtractRules(lib.parse(path), path, lib.trim).value
  }

  lemma AddPathSourced(entries: seq<RegistryEntry>, lib: Library, d: Draft, path: string)
    requires Sourced(entries, lib, d.rules) && AddPath(entries, lib, d, path).Ok? && PlannedFile(entries, path)
    ensures Sourced(entries, lib, AddPath(entries, lib, d, path).value.rules)
  {
    var d' := AddPath(entries, lib, d, path).value;
    hide PlannedFile, ExtractRules, OwningSpecOf;
    forall p | p in d'.rules ensures exists source :: FromFile(entries, lib, p, source) {
      if p !in d.rules {
        assert FromFile(entries, lib, p, path);
      }
    }
  }

  lemma {:induction false} AddPathsSourced(entries: seq<RegistryEntry>, lib: Library, d: Draft, paths: seq<string>)
    requires Sourced(entries, lib, d.rules) && AddPaths(entries, lib, d, paths).Ok? && forall path :: path in paths ==> PlannedFile(entries, path)
    ensures Sourced(entries, lib, AddPaths(entries, lib, d, paths).value.rules)
    decreases paths
  {
    if paths != [] {
      AddPathSourced(entries, lib, d, paths[0]);
      hide AddPath, Sourced, PlannedFile;
      AddPathsSourced(entries, lib, AddPath(entries, lib, d, paths[0]).value, paths[1..]);
    }
  }

  lemma {:induction false} AddEntriesSourced(entries: seq<RegistryEntry>, lib: Library, d: Draft, todo: seq<RegistryEntry>)
    requires Sourced(entries, lib, d.rules) && AddEntries(entries, lib, d, todo).Ok? && forall e :: e in todo ==> e in entries
    ensures Sourced(entries, lib, AddEntries(entries, lib, d, todo).value.rules)
    decreases todo
  {
    if todo != [] {
      hide Sourced, AddPaths;
      if todo[0].unavailable.Some? {
        AddEntriesSourced(entries, lib, d.(skipped := d.skipped + [Skip(todo[0].specId, todo[0].unavailable.value)]), todo[1..]);
      } else {
        AddPathsSourced(entries, lib, d, todo[0].schematron);
        AddEntriesSourced(entries, lib, AddPaths(entries, lib, d, todo[0].schematron).value, todo[1..]);
      }
    }
  }

  lemma {:induction false} SpecificationsList(entries: seq<RegistryEntry>, owners: seq<string>, o: string)
    requires Specifications(entries, owners).Ok? && o in owners && ById(entries, o).Some?
    ensures SpecificationOf(ById(entries, o).value) in Specifications(entries, owners).value
  {
    if o != owners[0] {
      SpecificationsList(entries, owners[1..], o);
    }
  }

  /** The specification is listed and its registry entry is not quarantined. */
  ghost predicate ListedLive(entries: seq<RegistryEntry>, plan: Plan, specId: string) {
    && ById(entries, specId).Some? && ById(entries, specId).value.unavailable.None?
    && SpecificationOf(ById(entries, specId).value) in plan.specifications
  }

  lemma PlanOf(entries: seq<RegistryEntry>, lib: Library) returns (d: Draft)
    requires Sorts(lib) && Planned(entries, lib).Ok?
    ensures d.rules == Planned(entries, lib).value.rules && DistinctIds(d.rules) && DraftOk(entries, lib, d)
    ensures forall e, path :: e in entries && e.unavailable.None? && path in e.schematron ==> path in d.seenFiles
    ensures forall o :: o in d.owners ==> ListedLive(entries, Planned(entries, lib).value, o)
    ensures Sourced(entries, lib, d.rules)
  {
    d := AddEntries(entries, lib, Draft([], {}, {}, []), entries).value;
    AddEntriesOk(entries, lib, Draft([], {}, {}, []), entries);
    AddEntriesSourced(entries, lib, Draft([], {}, {}, []), entries);
    hide Sourced;
    var plan := Planned(entries, lib).value;
    hide AddEntries, Specifications, SpecificationOf;
    forall o | o in d.owners ensures ListedLive(entries, plan, o) {
      SpecificationsList(entries, lib.sort(d.owners), o);
    }
  }

  /** Every planned rule is owned by a listed, live specification: the plan's foreign keys hold. */
  lemma PlanOwnersAreListed(entries: seq<RegistryEntry>, lib: Library, p: PlannedRule)
    requires Sorts(lib) && Planned(entries, lib).Ok? && p in Planned(entries, lib).value.rules
    ensures ListedLive(entries, Planned(entries, lib).value, p.specId)
  {
    var d := PlanOf(entries, lib);
    hide Planned;
  }

  /** What it means for the plan to hold a rule of the engine: exactly once, under a listed live specification. */
  ghost predicate PlannedOnce(entries: seq<RegistryEntry>, plan: Plan, ruleId: string) {
    exists i :: 0 <= i < |plan.rules|
                && (forall j :: 0 <= j < |plan.rules| ==> (plan.rules[j].rule.ruleId == ruleId <==> j == i))
                && ListedLive(entries, plan, plan.rules[i].specId)
  }

  /** Some assertion of a file that a live profile declares has the id as the last value of local name id. */
  ghost predicate LastIdPlanned(entries: seq<RegistryEntry>, lib: Library, id: string) {
    exists path, e :: PlannedFile(entries, path) && e in Assertions([lib.parse(path)]) && IsAssertion(e) && LastLocal(e.attrs, "id") == Some(id)
  }

  /**
   * Whenever the plan succeeds, a rule id is planned exactly once, under a listed specification that is not
   * quarantined, exactly when some assertion of a planned file has it as its last value of local name id;
   * any other id is not planned at all.
   */
  lemma PlannedExactly(entries: seq<RegistryEntry>, lib: Library, id: string)
    requires Sorts(lib) && Planned(entries, lib).Ok?
    ensures PlannedOnce(entries, Planned(entries, lib).value, id) <==> LastIdPlanned(entries, lib, id)
    ensures !LastIdPlanned(entries, lib, id) ==> forall p :: p in Planned(entries, lib).value.rules ==> p.rule.ruleId != id
  {
    hide Planned, PlannedOnce, LastIdPlanned;
    if LastIdPlanned(entries, lib, id) {
      LastIdIsPlanned(entries, lib, id);
    }
    forall p | p in Planned(entries, lib).value.rules ensures LastIdPlanned(entries, lib, p.rule.ruleId) {
      PlannedIsLastId(entries, lib, p);
    }
    if PlannedOnce(entries, Planned(entries, lib).value, id) {
      var p := TheOne(entries, Planned(entries, lib).value, id);
    }
  }

  lemma TheOne(entries: seq<RegistryEntry>, plan: Plan, id: string) returns (p: PlannedRule)
    requires PlannedOnce(entries, plan, id)
    ensures p in plan.rules && p.rule.ruleId == id
  {
    var i :| 0 <= i < |plan.rules|
              && (forall j :: 0 <= j < |plan.rules| ==> (plan.rules[j].rule.ruleId == id <==> j == i))
              && ListedLive(entries, plan, plan.rules[i].specId);
    p := plan.rules[i];
  }

  lemma LastIdIsPlanned(entries: seq<RegistryEntry>, lib: Library, id: string)
    requires Sorts(lib) && Planned(entries, lib).Ok? && LastIdPlanned(entries, lib, id)
    ensures PlannedOnce(entries, Planned(entries, lib).value, id)
  {
    var path, e :| PlannedFile(entries, path) && e in Assertions([lib.parse(path)]) && IsAssertion(e) && LastLocal(e.attrs, "id") == Some(id);
    var d := PlanOf(entries, lib);
    hide Planned, Sourced;
    assert path in d.seenFiles;
    var x := ExtractedFrom(entries, lib, d, path, e);
    PlannedIsPlannedOnce(entries, lib, PlannedRule(x, OwningSpecOf(path).value));
  }

  /** The rule planned for an assertion of a planned file. */
  lemma ExtractedFrom(entries: seq<RegistryEntry>, lib: Library, d: Draft, path: string, e: Xml) returns (x: ExtractedRule)
    requires DraftOk(entries, lib, d) && path in d.seenFiles && e in Assertions([lib.parse(path)]) && IsAssertion(e)
    ensures OwningSpecOf(path).Ok? && PlannedRule(x, OwningSpecOf(path).value) in d.rules
    ensures ToRule(e.attrs, e.kids, x.xpathContext, path, lib.trim) == Ok(x) && LastLocal(e.attrs, "id") == Some(x.ruleId)
  {
    assert Covered(lib, d, path);
    hide DraftOk, OwningSpecOf;
    var below := WalkExtracts([lib.parse(path)], None, path, lib.trim, e);
    hide Walk, LastLocal;
    x := ToRule(e.attrs, e.kids, below, path, lib.trim).value;
  }

  lemma PlannedIsPlannedOnce(entries: seq<RegistryEntry>, lib: Library, p: PlannedRule)
    requires Sorts(lib) && Planned(entries, lib).Ok? && p in Planned(entries, lib).value.rules
    ensures PlannedOnce(entries, Planned(entries, lib).value, p.rule.ruleId)
  {
    var plan := Planned(entries, lib).value;
    var d := PlanOf(entries, lib);
    PlanOwnersAreListed(entries, lib, p);
    hide Planned, ListedLive, DraftOk, Sourced;
    var i :| 0 <= i < |plan.rules| && plan.rules[i] == p;
  }

  lemma PlannedIsLastId(entries: seq<RegistryEntry>, lib: Library, p: PlannedRule)
    requires Sorts(lib) && Planned(entries, lib).Ok? && p in Planned(entries, lib).value.rules
    ensures LastIdPlanned(entries, lib, p.rule.ruleId)
  {
    var d := PlanOf(entries, lib);
    hide Planned, DraftOk, PlannedFile;
    var path :| FromFile(entries, lib, p, path);
    var e, below := WalkComesFrom([lib.parse(path)], None, path, lib.trim, p.rule);
    hide Walk, LastLocal;
  }

  /**
   * Every rule the engine compiles for a live profile comes from an assertion of a planned file. It is planned
   * exactly once, under a listed specification that is not quarantined, exactly when some planned assertion has
   * its id as the last value of local name id; its own assertion does unless a later attribute says otherwise.
   */
  lemma EveryEngineRuleIsPlannedOnce(entries: seq<RegistryEntry>, lib: Library, engine: Engine, profile: RegistryEntry,
                                     sorted: seq<string>, r: EngineRule) returns (path: string, e: Xml)
    requires Sorts(lib) && Planned(entries, lib).Ok?
    requires profile in entries && profile.unavailable.None? && forall path :: path in sorted ==> path in profile.schematron
    requires CompileRuleset(engine, lib, sorted).Ok? && r in CompileRuleset(engine, lib, sorted).value
    ensures path in sorted && e in Assertions([lib.parse(path)]) && IsAssertion(e) && Compile(engine, e.attrs) == Ok(r)
    ensures PlannedOnce(entries, Planned(entries, lib).value, r.ruleId) <==> LastIdPlanned(entries, lib, r.ruleId)
    ensures LastLocal(e.attrs, "id") == Get(e.attrs, "", "id") ==> PlannedOnce(entries, Planned(entries, lib).value, r.ruleId)
  {
    var x;
    path, e, x := PlannedFromEngine(entries, lib, engine, profile, sorted, r);
    SameIdExactly(engine, e.attrs, e.kids, x.xpathContext, path, lib.trim);
    hide Planned, PlannedOnce, Compile, ToRule, CompileRuleset, LastLocal, Get;
    PlannedExactly(entries, lib, r.ruleId);
  }

  /** The rule planned for that assertion says the same as the engine's exactly when the two read its attributes alike. */
  lemma PlannedRuleAgrees(entries: seq<RegistryEntry>, lib: Library, engine: Engine, profile: RegistryEntry,
                          sorted: seq<string>, r: EngineRule) returns (path: string, e: Xml, p: PlannedRule)
    requires Sorts(lib) && Planned(entries, lib).Ok?
    requires profile in entries && profile.unavailable.None? && forall path :: path in sorted ==> path in profile.schematron
    requires CompileRuleset(engine, lib, sorted).Ok? && r in CompileRuleset(engine, lib, sorted).value
    ensures path in sorted && e in Assertions([lib.parse(path)]) && IsAssertion(e) && Compile(engine, e.attrs) == Ok(r)
    ensures p in Planned(entries, lib).value.rules && ToRule(e.attrs, e.kids, p.rule.xpathContext, path, lib.trim) == Ok(p.rule)
    ensures Agrees(r, p.rule) <==> ReadsAlike(e.attrs)
  {
    var x;
    path, e, x := PlannedFromEngine(entries, lib, engine, profile, sorted, r);
    SameRuleExactly(engine, e.attrs, e.kids, x.xpathContext, path, lib.trim);
    p := PlannedRule(x, OwningSpecOf(path).value);
  }

  lemma PlannedFromEngine(entries: seq<RegistryEntry>, lib: Library, engine: Engine, profile: RegistryEntry,
                          sorted: seq<string>, r: EngineRule)
    returns (path: string, e: Xml, x: ExtractedRule)
    requires Sorts(lib) && Planned(entries, lib).Ok?
    requires profile in entries && profile.unavailable.None? && forall p :: p in sorted ==> p in profile.schematron
    requires CompileRuleset(engine, lib, sorted).Ok? && r in CompileRuleset(engine, lib, sorted).value
    ensures path in sorted && OwningSpecOf(path).Ok?
    ensures e in Assertions([lib.parse(path)]) && IsAssertion(e) && Compile(engine, e.attrs) == Ok(r)
    ensures ToRule(e.attrs, e.kids, x.xpathContext, path, lib.trim) == Ok(x)
    ensures PlannedRule(x, OwningSpecOf(path).value) in Planned(entries, lib).value.rules
  {
    path := LoadedFrom(engine, lib, sorted, r);
    e := LoadedRuleComesFromAssertion(engine, lib.parse(path), r);
    var d := PlanOf(entries, lib);
    assert path in d.seenFiles;
    x := ExtractedFrom(entries, lib, d, path, e);
    hide Planned, Compile;
  }

  // ---------- A rule the plan misses ----------

  const XML_NS := "http://www.w3.org/XML/1998/namespace"

  /** One assertion with an unprefixed id and an `xml:id`. */
  const TWO_IDS: seq<Attr> := [Attr("", "id", "A"), Attr("", "test", "true()"), Attr(CDL_NS, "failure-class", "rounding"),
                               Attr(CDL_NS, "expected-description", "d"), Attr(XML_NS, "id", "B")]

  const ASSERTION := Elem(SCH_NS, "assert", TWO_IDS, [Text("text")])

  const SCHEMA := Elem(SCH_NS, "schema", [Attr("", "queryBinding", "xslt2")],
                       [Elem(SCH_NS, "pattern", [], [Elem(SCH_NS, "rule", [Attr("", "context", "/x")], [ASSERTION])])])

  const FILE := "p/f.sch"

  const REGISTRY := [RegistryEntry("p", "AE", "1", [FILE], None)]

  lemma TwoIdsRead(engine: Engine, trim: string -> string, context: Option<string>)
    requires trim("text") == "text"
    ensures Compile(engine, TWO_IDS) == Ok(EngineRule("A", None, "error", None, Some("rounding")))
    ensures ToRule(TWO_IDS, [Text("text")], context, FILE, trim)
            == Ok(ExtractedRule("B", "B", "error", None, context, "rounding", "text", FILE))
  {
    var attrs := TWO_IDS;
    assert |CDL_NS| > 0;
    GetAt(attrs, "", "test", 1);
    GetAt(attrs, CDL_NS, "failure-class", 2);
    GetAt(attrs, CDL_NS, "expected-description", 3);
    GetNone(attrs, "", "flag");
    LastNone(attrs, "flag");
    GetNone(attrs, CDL_NS, "codelist");
    LastAt(attrs, "failure-class", 2);
    GetNone(attrs, CDL_NS, "native-code");
    GetNone(attrs, CDL_NS, "business-term");
    LastNone(attrs, "native-code");
    LastNone(attrs, "business-term");
    assert LastLocal(attrs, "id") == Some("B");
    assert Get(attrs, "", "id") == Some("A");
    assert TextOf([Text("text")]) == "text" + "" == "text";
    hide Get, LastLocal, TextOf;
    assert "rounding" == FAILURE_CLASSES[9] && "error" == SEVERITIES[1];
  }

  lemma SchemaWalked(trim: string -> string)
    requires trim("text") == "text"
    ensures ExtractRules(SCHEMA, FILE, trim).Ok?
    ensures ExtractRules(SCHEMA, FILE, trim).value == [ExtractedRule("B", "B", "error", None, Some("/x"), "rounding", "text", FILE)]
  {
    var rule := Elem(SCH_NS, "rule", [Attr("", "context", "/x")], [ASSERTION]);
    assert LastLocal(rule.attrs, "context") == Some("/x");
    TwoIdsRead(Engine(_ => true, s => s, (a, b, c) => true), trim, Some("/x"));
    hide ToRule, LastLocal;
    var found := ToRule(TWO_IDS, [Text("text")], Some("/x"), FILE, trim);
    assert [found.value] + [] == [found.value] && [] + [found.value] == [found.value];
    assert IsAssertion(ASSERTION) && ContextBelow(ASSERTION, Some("/x")) == Some("/x");
    assert [Text("text")][1..] == [] && [ASSERTION][1..] == [] && [rule][1..] == [];
    assert Walk([Text("text")], Some("/x"), FILE, trim) == Ok([]);
    assert Walk([ASSERTION], Some("/x"), FILE, trim) == Ok([found.value]);
    assert Walk([rule], None, FILE, trim) == Ok([found.value]);
    var pattern := Elem(SCH_NS, "pattern", [], [rule]);
    assert [pattern][1..] == [] && [SCHEMA][1..] == [];
    assert Walk([pattern], None, FILE, trim) == Ok([found.value]);
    assert Walk([SCHEMA], None, FILE, trim) == Ok([found.value]);
  }

  lemma FileOwner()
    ensures OwningSpecOf(FILE) == Ok("p")
  {
    assert FILE[0] == 'p' && FILE[1..][0] == '/';
    assert FirstSlash(FILE[1..]) == 0;
    assert FILE[..1] == "p";
  }

  lemma RegistryPlanned(lib: Library)
    requires Sorts(lib) && lib.parse(FILE) == SCHEMA && lib.trim("text") == "text"
    ensures Planned(REGISTRY, lib).Ok?
    ensures forall p :: p in Planned(REGISTRY, lib).value.rules ==> p.rule.ruleId == "B"
  {
    SchemaWalked(lib.trim);
    FileOwner();
    hide ExtractRules, OwningSpecOf;
    var d0 := Draft([], {}, {}, []);
    assert ById(REGISTRY, "p") == Some(REGISTRY[0]);
    var d1 := AddPath(REGISTRY, lib, d0, FILE).value;
    assert AddPath(REGISTRY, lib, d0, FILE).Ok? && d1.owners == {"p"} && |d1.rules| == 1 && d1.rules[0].rule.ruleId == "B";
    hide AddPath;
    assert [FILE][1..] == [] && REGISTRY[1..] == [];
    assert AddPaths(REGISTRY, lib, d0, [FILE]) == Ok(d1);
    assert AddEntries(REGISTRY, lib, d0, REGISTRY) == Ok(d1);
    hide AddEntries;
    ListedAll(REGISTRY, lib.sort(d1.owners));
  }

  lemma {:induction false} ListedAll(entries: seq<RegistryEntry>, owners: seq<string>)
    requires forall o :: o in owners ==> ById(entries, o).Some?
    ensures Specifications(entries, owners).Ok?
  {
    if owners != [] {
      ListedAll(entries, owners[1..]);
    }
  }

  lemma SchemaCompiled(engine: Engine, lib: Library)
    requires engine.wellFormed(FILE) && engine.lower("xslt2") == "xslt2" && lib.parse(FILE) == SCHEMA && lib.trim("text") == "text"
    ensures CompileRuleset(engine, lib, [FILE]) == Ok([EngineRule("A", None, "error", None, Some("rounding"))])
  {
    var compiled := EngineRule("A", None, "error", None, Some("rounding"));
    TwoIdsRead(engine, lib.trim, None);
    hide Compile;
    var rule := Elem(SCH_NS, "rule", [Attr("", "context", "/x")], [ASSERTION]);
    var pattern := Elem(SCH_NS, "pattern", [], [rule]);
    assert [compiled] + [] == [compiled];
    assert IsSch(ASSERTION, "assert");
    assert [ASSERTION][1..] == [] && [rule][1..] == [] && [pattern][1..] == [] && [FILE][1..] == [];
    assert CompileRule(engine, [ASSERTION]) == Ok([compiled]);
    assert Get(rule.attrs, "", "context") == Some("/x") && Get(rule.attrs, "", "abstract") == None by {
      GetNone(rule.attrs, "", "abstract");
    }
    assert CompilePattern(engine, [rule]) == Ok([compiled]);
    assert Get(pattern.attrs, "", "abstract") == None;
    assert CompilePatterns(engine, [pattern]) == Ok([compiled]);
    SchemaIsSupported();
    assert Get(SCHEMA.attrs, "", "queryBinding") == Some("xslt2");
    hide CompilePatterns, Get, HasUnsupported;
    assert LoadSchematron(engine, SCHEMA) == Ok([compiled]);
    hide LoadSchematron;
    assert LoadAll(engine, lib, [FILE]) == Ok([compiled]);
  }

  lemma SchemaIsSupported()
    ensures !HasUnsupported([SCHEMA])
  {
    var rule := Elem(SCH_NS, "rule", [Attr("", "context", "/x")], [ASSERTION]);
    var pattern := Elem(SCH_NS, "pattern", [], [rule]);
    assert [Text("text")][1..] == [] && [ASSERTION][1..] == [] && [rule][1..] == [] && [pattern][1..] == [] && [SCHEMA][1..] == [];
    assert !HasUnsupported([Text("text")]);
    assert !HasUnsupported([ASSERTION]);
    assert !HasUnsupported([rule]);
    assert !HasUnsupported([pattern]);
  }

  /**
   * A second attribute of local name id hides a rule: a registry and a file for which the plan succeeds and the
   * engine compiles the rule "A", which is planned nowhere.
   */
  lemma SecondIdHidesRule(engine: Engine, lib: Library)
    requires Sorts(lib) && lib.parse(FILE) == SCHEMA && lib.trim("text") == "text"
    requires engine.wellFormed(FILE) && engine.lower("xslt2") == "xslt2"
    ensures Planned(REGISTRY, lib).Ok? && CompileRuleset(engine, lib, REGISTRY[0].schematron).Ok?
    ensures CompileRuleset(engine, lib, REGISTRY[0].schematron).value[0].ruleId == "A"
    ensures forall p :: p in Planned(REGISTRY, lib).value.rules ==> p.rule.ruleId != "A"
    ensures !PlannedOnce(REGISTRY, Planned(REGISTRY, lib).value, "A")
  {
    RegistryPlanned(lib);
    SchemaCompiled(engine, lib);
    hide Planned, CompileRuleset;
  }

  // ---------- What an extracted rule says ----------

  /** The element occurs among the nodes, and this is the context of the innermost `rule` around it that has one. */
  ghost predicate OccursUnder(nodes: seq<Xml>, outer: Option<string>, e: Xml, inner: Option<string>)
    decreases nodes
  {
    && nodes != []
    && ((nodes[0].Elem?
         && var here := if nodes[0].local == "rule" && SeedAttr(nodes[0].attrs, "context").Some? then SeedAttr(nodes[0].attrs, "context") else outer;
         ((e == nodes[0] && inner == here) || OccursUnder(nodes[0].kids, here, e, inner)))
        || OccursUnder(nodes[1..], outer, e, inner))
  }

  /** Field by field; the native code is the id where there is none, and the severity `error` where there is no flag. */
  ghost predicate RuleSays(x: ExtractedRule, e: Xml, context: Option<string>, source: string, trim: string -> string)
    requires e.Elem?
  {
    && SeedAttr(e.attrs, "id") == Some(x.ruleId)
    && (if SeedAttr(e.attrs, "native-code").Some? then SeedAttr(e.attrs, "native-code") == Some(x.nativeRuleCode) else x.nativeRuleCode == x.ruleId)
    && (if SeedAttr(e.attrs, "flag").Some? then SeedAttr(e.attrs, "flag") == Some(x.severity) else x.severity == "error")
    && x.severity in ["fatal", "error", "warning"]
    && x.businessTerm == SeedAttr(e.attrs, "business-term") && x.xpathContext == context
    && SeedAttr(e.attrs, "failure-class") == Some(x.failureClass) && x.failureClass in FAILURE_CLASSES
    && x.assertText == trim(TextOf(e.kids)) && x.assertText != "" && x.source == source
  }

  lemma ToRuleSays(e: Xml, context: Option<string>, source: string, trim: string -> string)
    requires e.Elem?
    ensures var r := ToRule(e.attrs, e.kids, context, source, trim);
            && (r.Ok? ==> RuleSays(r.value, e, context, source, trim))
            && forall x :: RuleSays(x, e, context, source, trim) ==> r == Ok(x)
  {
    hide SeedAttr, TextOf, FAILURE_CLASSES;
  }

  /** Every extracted rule says what some assertion says, in the context around that assertion. */
  lemma {:induction false} ExtractedSays(nodes: seq<Xml>, context: Option<string>, source: string, trim: string -> string, x: ExtractedRule)
    returns (e: Xml, inner: Option<string>)
    requires Walk(nodes, context, source, trim).Ok? && x in Walk(nodes, context, source, trim).value
    ensures IsAssertion(e) && OccursUnder(nodes, context, e, inner) && RuleSays(x, e, inner, source, trim)
    decreases nodes
  {
    hide ToRule, RuleSays, SeedAttr;
    if nodes[0].Text? {
      e, inner := ExtractedSays(nodes[1..], context, source, trim, x);
    } else {
      var below := ContextBelow(nodes[0], context);
      if x in Walk(nodes[0].kids, below, source, trim).value {
        e, inner := ExtractedSays(nodes[0].kids, below, source, trim, x);
      } else if x in Walk(nodes[1..], context, source, trim).value {
        e, inner := ExtractedSays(nodes[1..], context, source, trim, x);
      } else {
        e, inner := nodes[0], below;
        ToRuleSays(e, below, source, trim);
      }
    }
  }

  /** And every assertion is extracted as a rule that says it. */
  lemma {:induction false} AssertionIsExtracted(nodes: seq<Xml>, context: Option<string>, source: string, trim: string -> string,
                                                e: Xml, inner: Option<string>) returns (x: ExtractedRule)
    requires Walk(nodes, context, source, trim).Ok? && IsAssertion(e) && OccursUnder(nodes, context, e, inner)
    ensures x in Walk(nodes, context, source, trim).value && RuleSays(x, e, inner, source, trim)
    decreases nodes
  {
    hide ToRule, RuleSays, SeedAttr;
    if nodes[0].Text? {
      x := AssertionIsExtracted(nodes[1..], context, source, trim, e, inner);
    } else {
      var below := ContextBelow(nodes[0], context);
      if e == nodes[0] && inner == below {
        x := ToRule(e.attrs, e.kids, below, source, trim).value;
        ToRuleSays(e, below, source, trim);
      } else if OccursUnder(nodes[0].kids, below, e, inner) {
        x := AssertionIsExtracted(nodes[0].kids, below, source, trim, e, inner);
      } else {
        x := AssertionIsExtracted(nodes[1..], context, source, trim, e, inner);
      }
    }
  }

  lemma JoinAssoc<T>(a: Result<seq<T>, SeedError>, b: Result<seq<T>, SeedError>, c: Result<seq<T>, SeedError>)
    ensures Join(Join(a, b), c) == Join(a, Join(b, c))
  {
    if a.Ok? && b.Ok? && c.Ok? {
      assert (a.value + b.value) + c.value == a.value + (b.value + c.value);
    }
  }

  /** Rules are extracted in document order. */
  lemma {:induction false} WalkConcat(a: seq<Xml>, b: seq<Xml>, context: Option<string>, source: string, trim: string -> string)
    ensures Walk(a + b, context, source, trim) == Join(Walk(a, context, source, trim), Walk(b, context, source, trim))
    decreases |a|
  {
    hide ToRule;
    if a == [] {
      assert a + b == b;
      JoinNothing(Walk(b, context, source, trim));
    } else {
      assert (a + b)[0] == a[0] && (a + b)[1..] == a[1..] + b;
      WalkConcat(a[1..], b, context, source, trim);
      if a[0].Elem? {
        var below := ContextBelow(a[0], context);
        var own := if IsAssertion(a[0]) then Single(ToRule(a[0].attrs, a[0].kids, below, source, trim)) else Ok([]);
        hide Join, Single;
        JoinAssoc(Join(own, Walk(a[0].kids, below, source, trim)), Walk(a[1..], context, source, trim), Walk(b, context, source, trim));
      }
    }
  }

  // ---------- What a plan says of its specifications ----------

  /** A path is owned by what stands before its first slash, and refused when nothing does or there is none. */
  lemma OwnerExactly(path: string, owner: string)
    ensures OwningSpecOf(path) == Ok(owner) <==> owner != "" && '/' !in owner && owner + "/" <= path
  {
    var n := FirstSlash(path);
    if n < |path| {
      assert path[..n + 1] == path[..n] + "/";
    }
    if owner + "/" <= path && '/' !in owner {
      FirstSlashAfter(owner, path);
    }
  }

  lemma {:induction false} FirstSlashAfter(owner: string, path: string)
    requires owner + "/" <= path && '/' !in owner
    ensures FirstSlash(path) == |owner| && path[..|owner|] == owner
  {
    assert path[|owner|] == '/' && path[..|owner|] == owner;
    if owner != "" {
      assert path[0] == owner[0] && path[1..][..|owner|] == owner[1..] + "/";
      FirstSlashAfter(owner[1..], path[1..]);
    }
  }

  ghost predicate SpecificationSays(spec: Specification, entry: RegistryEntry) {
    && spec.specId == entry.specId && spec.name == entry.specId && spec.jurisdiction == entry.jurisdiction && spec.version == entry.version
  }

  /** One specification for each owner, in their order, that says what the last registry entry of its id says. */
  lemma {:induction false} SpecificationsSay(entries: seq<RegistryEntry>, owners: seq<string>)
    requires Specifications(entries, owners).Ok?
    ensures var specs := Specifications(entries, owners).value;
            |specs| == |owners| && forall i :: 0 <= i < |owners| ==>
              ById(entries, owners[i]).Some? && SpecificationSays(specs[i], ById(entries, owners[i]).value)
    decreases owners
  {
    if owners != [] {
      SpecificationsSay(entries, owners[1..]);
      hide ById;
      assert forall i :: 0 < i < |owners| ==> owners[i] == owners[1..][i - 1];
    }
  }

  // ---------- What the engine refuses ----------

  /** The first attribute of the name is there and not empty. */
  ghost predicate HasAttr(attrs: seq<Attr>, ns: string, local: string) {
    exists i :: 0 <= i < |attrs| && attrs[i].ns == ns && attrs[i].local == local && attrs[i].value != ""
                && forall j :: 0 <= j < i ==> attrs[j].ns != ns || attrs[j].local != local
  }

  lemma {:induction false} GivenExactly(attrs: seq<Attr>, ns: string, local: string)
    ensures Given(Get(attrs, ns, local)) <==> HasAttr(attrs, ns, local)
    decreases |attrs|
  {
    if attrs != [] {
      GivenExactly(attrs[1..], ns, local);
      if HasAttr(attrs[1..], ns, local) && !(attrs[0].ns == ns && attrs[0].local == local) {
        var i :| 0 <= i < |attrs[1..]| && attrs[1..][i].ns == ns && attrs[1..][i].local == local && attrs[1..][i].value != ""
                 && forall j :: 0 <= j < i ==> attrs[1..][j].ns != ns || attrs[1..][j].local != local;
        assert attrs[i + 1] == attrs[1..][i];
        assert forall j :: 0 < j <= i ==> attrs[j] == attrs[1..][j - 1];
      }
      if HasAttr(attrs, ns, local) && !(attrs[0].ns == ns && attrs[0].local == local) {
        var i :| 0 <= i < |attrs| && attrs[i].ns == ns && attrs[i].local == local && attrs[i].value != ""
                 && forall j :: 0 <= j < i ==> attrs[j].ns != ns || attrs[j].local != local;
        assert attrs[1..][i - 1] == attrs[i];
        assert forall j :: 0 <= j < i - 1 ==> attrs[1..][j] == attrs[j + 1];
      }
    }
  }

  ghost predicate Occurs(nodes: seq<Xml>, e: Xml)
    decreases nodes
  {
    nodes != [] && ((nodes[0].Elem? && (e == nodes[0] || Occurs(nodes[0].kids, e))) || Occurs(nodes[1..], e))
  }

  predicate IsUnsupported(e: Xml) {
    e.Elem? && e.ns == SCH_NS && e.local in ["include", "extends", "phase", "diagnostics", "param"]
  }

  lemma {:induction false} UnsupportedExactly(nodes: seq<Xml>)
    ensures HasUnsupported(nodes) <==> exists e :: Occurs(nodes, e) && IsUnsupported(e)
    decreases nodes
  {
    if nodes != [] {
      hide IsUnsupported;
      UnsupportedExactly(nodes[1..]);
      OneUnsupported(nodes[0]);
      if nodes[0].Elem? {
        UnsupportedExactly(nodes[0].kids);
        assert Occurs(nodes, nodes[0]);
      }
      forall e | Occurs(nodes, e) && IsUnsupported(e) ensures HasUnsupported(nodes) {
      }
      if HasUnsupported(nodes[1..]) {
        var e :| Occurs(nodes[1..], e) && IsUnsupported(e);
        assert Occurs(nodes, e);
      } else if nodes[0].Elem? && HasUnsupported(nodes[0].kids) {
        var e :| Occurs(nodes[0].kids, e) && IsUnsupported(e);
        assert Occurs(nodes, e);
      }
    }
  }

  lemma OneUnsupported(e: Xml)
    ensures IsUnsupported(e) <==> e.Elem? && e.ns == SCH_NS && e.local in UNSUPPORTED
  {
  }

  ghost predicate AssertionReads(engine: Engine, attrs: seq<Attr>) {
    var severity := if Get(attrs, "", "flag").Some? then Get(attrs, "", "flag").value else "error";
    && HasAttr(attrs, "", "id") && HasAttr(attrs, "", "test") && HasAttr(attrs, CDL_NS, "expected-description")
    && severity in ["fatal", "error", "warning"]
    && (Get(attrs, CDL_NS, "failure-class").Some? ==> Get(attrs, CDL_NS, "failure-class").value in FAILURE_CLASSES)
    && (Get(attrs, CDL_NS, "codelist").Some? ==>
          engine.codelistOk(Get(attrs, CDL_NS, "codelist").value, severity, OrElse(Get(attrs, "", "id"), "")))
  }

  /** An assertion compiles exactly when it has an id, a test and a description, and its severity, class and code list are known. */
  lemma CompilesExactly(engine: Engine, attrs: seq<Attr>)
    ensures Compile(engine, attrs).Ok? <==> AssertionReads(engine, attrs)
  {
    GivenExactly(attrs, "", "id");
    GivenExactly(attrs, "", "test");
    GivenExactly(attrs, CDL_NS, "expected-description");
    hide Get, HasAttr, FAILURE_CLASSES;
  }

  ghost predicate AttrsRead(kids: seq<Xml>, local: string, a: string, b: string) {
    forall i :: 0 <= i < |kids| && IsSch(kids[i], local) ==> HasAttr(kids[i].attrs, "", a) && HasAttr(kids[i].attrs, "", b)
  }

  lemma AllGivenExactly(kids: seq<Xml>, local: string, a: string, b: string)
    ensures AllGiven(kids, local, a, b) <==> AttrsRead(kids, local, a, b)
  {
    forall i | 0 <= i < |kids| && IsSch(kids[i], local)
      ensures Given(Get(kids[i].attrs, "", a)) <==> HasAttr(kids[i].attrs, "", a)
      ensures Given(Get(kids[i].attrs, "", b)) <==> HasAttr(kids[i].attrs, "", b)
    {
      GivenExactly(kids[i].attrs, "", a);
      GivenExactly(kids[i].attrs, "", b);
    }
    hide Get, HasAttr;
  }

  predicate IsReportOrAssert(x: Xml) {
    IsSch(x, "assert") || IsSch(x, "report")
  }

  ghost predicate AssertionsRead(engine: Engine, kids: seq<Xml>) {
    forall i :: 0 <= i < |kids| && IsReportOrAssert(kids[i]) ==> AssertionReads(engine, kids[i].attrs)
  }

  ghost predicate RuleReads(engine: Engine, r: Xml) {
    IsSch(r, "rule") ==>
      && Get(r.attrs, "", "abstract") != Some("true") && HasAttr(r.attrs, "", "context") && AttrsRead(r.kids, "let", "name", "value")
      && AssertionsRead(engine, r.kids)
  }

  ghost predicate RulesRead(engine: Engine, kids: seq<Xml>) {
    forall i :: 0 <= i < |kids| ==> RuleReads(engine, kids[i])
  }

  ghost predicate PatternReads(engine: Engine, p: Xml) {
    IsSch(p, "pattern") ==> Get(p.attrs, "", "abstract") != Some("true") && RulesRead(engine, p.kids)
  }

  ghost predicate PatternsRead(engine: Engine, kids: seq<Xml>) {
    forall i :: 0 <= i < |kids| ==> PatternReads(engine, kids[i])
  }

  lemma {:induction false} RuleCompilesExactly(engine: Engine, kids: seq<Xml>)
    ensures CompileRule(engine, kids).Ok? <==> AssertionsRead(engine, kids)
    decreases |kids|
  {
    hide Compile, AssertionReads;
    if kids != [] {
      RuleCompilesExactly(engine, kids[1..]);
      if IsReportOrAssert(kids[0]) {
        CompilesExactly(engine, kids[0].attrs);
      }
      assert AssertionsRead(engine, kids) <==>
             (IsReportOrAssert(kids[0]) ==> AssertionReads(engine, kids[0].attrs)) && AssertionsRead(engine, kids[1..]) by {
        assert forall i :: 0 < i < |kids| ==> kids[i] == kids[1..][i - 1];
        assert forall i :: 0 <= i < |kids[1..]| ==> kids[1..][i] == kids[i + 1];
      }
      hide AssertionsRead;
    }
  }

  lemma {:induction false} PatternCompilesExactly(engine: Engine, kids: seq<Xml>)
    ensures CompilePattern(engine, kids).Ok? <==> RulesRead(engine, kids)
    decreases |kids|
  {
    hide Get, HasAttr, AttrsRead, AllGiven, AssertionsRead, CompileRule;
    if kids != [] {
      PatternCompilesExactly(engine, kids[1..]);
      if IsSch(kids[0], "rule") {
        GivenExactly(kids[0].attrs, "", "context");
        AllGivenExactly(kids[0].kids, "let", "name", "value");
        RuleCompilesExactly(engine, kids[0].kids);
      }
      assert RulesRead(engine, kids) <==> RuleReads(engine, kids[0]) && RulesRead(engine, kids[1..]) by {
        assert forall i :: 0 < i < |kids| ==> kids[i] == kids[1..][i - 1];
        assert forall i :: 0 <= i < |kids[1..]| ==> kids[1..][i] == kids[i + 1];
      }
      hide RulesRead;
    }
  }

  lemma {:induction false} PatternsCompileExactly(engine: Engine, kids: seq<Xml>)
    ensures CompilePatterns(engine, kids).Ok? <==> PatternsRead(engine, kids)
    decreases |kids|
  {
    hide Get, RulesRead, CompilePattern;
    if kids != [] {
      PatternsCompileExactly(engine, kids[1..]);
      if IsSch(kids[0], "pattern") {
        PatternCompilesExactly(engine, kids[0].kids);
      }
      assert PatternsRead(engine, kids) <==> PatternReads(engine, kids[0]) && PatternsRead(engine, kids[1..]) by {
        assert forall i :: 0 < i < |kids| ==> kids[i] == kids[1..][i - 1];
        assert forall i :: 0 <= i < |kids[1..]| ==> kids[1..][i] == kids[i + 1];
      }
      hide PatternsRead;
    }
  }

  /**
   * The engine loads a file exactly when it is a schema with a known query binding, has no unsupported element anywhere,
   * names every namespace and let, has no abstract pattern or rule and a context for every rule, and can read every
   * assertion.
   */
  lemma LoadsExactly(engine: Engine, root: Xml)
    ensures LoadSchematron(engine, root).Ok? <==>
              && IsSch(root, "schema") && engine.lower(OrElse(Get(root.attrs, "", "queryBinding"), "")) in ["xslt2", "xslt3"]
              && (forall e :: Occurs([root], e) ==> !IsUnsupported(e))
              && AttrsRead(root.kids, "ns", "prefix", "uri") && PatternsRead(engine, root.kids)
  {
    UnsupportedExactly([root]);
    hide HasUnsupported, Occurs, IsUnsupported, CompilePatterns, PatternsRead, AllGiven, AttrsRead, Get;
    if root.Elem? {
      AllGivenExactly(root.kids, "ns", "prefix", "uri");
      PatternsCompileExactly(engine, root.kids);
    }
  }
}
