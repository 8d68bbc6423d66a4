/**
 * The Schematron interpreter of apps/validator/src/validator/engine.py: the loop that claims nodes,
 * against the reading of ISO/IEC 19757-3:2006, section 6.5 (within a pattern, the first rule whose
 * context matches a node applies to it and no other rule does). XPath evaluation is a parameter.
 */
module Schematron {
  import opened Base
  import opened Shapes
  import Redaction

  datatype Severity = Fatal | Error | Warning

  datatype CompiledRule = CompiledRule(
    ruleId: string, nativeRuleCode: Option<string>, severity: Severity, businessTerm: Option<string>,
    failureClass: Option<string>, test: string, isReport: bool, valueXpath: Option<string>,
    expected: Option<string>, expectedDescription: string)

  datatype RuleContext = RuleContext(expr: string, rules: seq<CompiledRule>)

  type CompiledPattern = seq<RuleContext>

  datatype Finding = Finding(
    ruleId: string, nativeRuleCode: Option<string>, severity: Severity, businessTerm: Option<string>,
    xpath: string, failureClass: Option<string>, message: string, valueShape: ValueShape)

  datatype Failure = SchematronCompileError | RedactionInvariantError

  type Node = nat

  /**
   * One document as Saxon shows it: what each context expression selects (None when it selects
   * nothing at all), each node's path, tests and strings at a node, and the pattern search of the
   * redaction backstop. Every evaluation may fail.
   */
  datatype Document = Document(
    select: string -> Result<Option<seq<Node>>, Failure>,
    path: Node -> string,
    readable: string -> string,
    holds: (Node, string) -> Result<bool, Failure>,
    stringAt: (Node, string) -> Result<Option<string>, Failure>,
    present: (Node, string) -> bool,
    dirty: string -> bool,
    unicode: Unicode)

  // ---------- One rule at one node ----------

  /** `_evaluate_rule`. An absent element reads as null, a blank one as the empty string. */
  function EvaluateRule(d: Document, rule: CompiledRule, node: Node): Result<Option<Finding>, Failure> {
    match d.holds(node, rule.test)
    case Err(e) => Err(SchematronCompileError)
    case Ok(holds) =>
      if holds != rule.isReport then Ok(None)
      else match RawValue(d, rule, node)
           case Err(e) => Err(e)
           case Ok(raw) =>
             var shape := DeriveValueShape(d.unicode, raw, rule.expected);
             var message := Redaction.MessageText(rule.expectedDescription, shape);
             if d.dirty(Redaction.Probe(Some(message), Some(shape))) then Err(RedactionInvariantError)
             else Ok(Some(Finding(rule.ruleId, rule.nativeRuleCode, rule.severity, rule.businessTerm,
                                  d.readable(d.path(node)), rule.failureClass, message, shape)))
  }

  function RawValue(d: Document, rule: CompiledRule, node: Node): Result<Option<string>, Failure> {
    if rule.valueXpath.None? then Ok(None)
    else match d.stringAt(node, rule.valueXpath.value)
         case Err(e) => Err(SchematronCompileError)
         case Ok(raw) => Ok(if raw == Some("") && !d.present(node, rule.valueXpath.value) then None else raw)
  }

  // ---------- Verdicts in order, and what a run makes of them ----------

  datatype Verdict = Quiet | Found(finding: Finding) | Raised(failure: Failure)

  function VerdictOf(d: Document, rule: CompiledRule, node: Node): Verdict {
    match EvaluateRule(d, rule, node)
    case Err(e) => Raised(e)
    case Ok(None) => Quiet
    case Ok(Some(f)) => Found(f)
  }

  predicate IsFailing(f: Finding) {
    f.severity == Fatal || f.severity == Error
  }

  /**
   * What a run returns for verdicts met in this order: the first failure raises, warnings may be left
   * out, and a run that stops on the first error returns right after it.
   */
  function Resolve(verdicts: seq<Verdict>, includeWarnings: bool, stop: bool): Result<seq<Finding>, Failure> {
    if verdicts == [] then Ok([])
    else match verdicts[0]
         case Raised(e) => Err(e)
         case Quiet => Resolve(verdicts[1..], includeWarnings, stop)
         case Found(f) =>
           if f.severity == Warning && !includeWarnings then Resolve(verdicts[1..], includeWarnings, stop)
           else if stop && IsFailing(f) then Ok([f])
           else match Resolve(verdicts[1..], includeWarnings, stop)
                case Err(e) => Err(e)
                case Ok(fs) => Ok([f] + fs)
  }

  /** A run that has already collected `findings`. */
  function Continue(findings: seq<Finding>, rest: Result<seq<Finding>, Failure>): Result<seq<Finding>, Failure> {
    match rest
    case Err(e) => Err(e)
    case Ok(fs) => Ok(findings + fs)
  }

  // ---------- The claiming order, as the loop meets it ----------

  function RuleVerdicts(d: Document, rules: seq<CompiledRule>, node: Node): (v: seq<Verdict>)
    ensures |v| == |rules|
  {
    seq(|rules|, i requires 0 <= i < |rules| => VerdictOf(d, rules[i], node))
  }

  function Paths(d: Document, nodes: seq<Node>): set<string> {
    set n | n in nodes :: d.path(n)
  }

  function ClaimVerdicts(d: Document, rules: seq<CompiledRule>, nodes: seq<Node>, claimed: set<string>): seq<Verdict> {
    if nodes == [] then []
    else if d.path(nodes[0]) in claimed then ClaimVerdicts(d, rules, nodes[1..], claimed)
    else RuleVerdicts(d, rules, nodes[0]) + ClaimVerdicts(d, rules, nodes[1..], claimed + {d.path(nodes[0])})
  }

  function ContextVerdicts(d: Document, contexts: seq<RuleContext>, claimed: set<string>): seq<Verdict> {
    if contexts == [] then []
    else match d.select(contexts[0].expr)
         case Err(e) => [Raised(SchematronCompileError)]
         case Ok(None) => ContextVerdicts(d, contexts[1..], claimed)
         case Ok(Some(nodes)) =>
           ClaimVerdicts(d, contexts[0].rules, nodes, claimed)
           + ContextVerdicts(d, contexts[1..], claimed + Paths(d, nodes))
  }

  function PatternVerdicts(d: Document, patterns: seq<CompiledPattern>): seq<Verdict> {
    if patterns == [] then []
    else ContextVerdicts(d, patterns[0], {}) + PatternVerdicts(d, patterns[1..])
  }

  lemma {:induction false} ResolveConcat(a: seq<Verdict>, b: seq<Verdict>, w: bool)
    ensures Resolve(a + b, w, false) == match Resolve(a, w, false)
                                        case Err(e) => Err(e)
                                        case Ok(fs) => Continue(fs, Resolve(b, w, false))
  {
    if a == [] {
      assert a + b == b;
      assert Resolve(b, w, false).Ok? ==> [] + Resolve(b, w, false).value == Resolve(b, w, false).value;
    } else {
      assert (a + b)[1..] == a[1..] + b;
      ResolveConcat(a[1..], b, w);
      if Resolve(a[1..], w, false).Ok? && Resolve(b, w, false).Ok? && a[0].Found? {
        var x, y := Resolve(a[1..], w, false).value, Resolve(b, w, false).value;
        assert [a[0].finding] + (x + y) == ([a[0].finding] + x) + y;
      }
    }
  }

  // ---------- stop_on_first_error and include_warnings ----------

  /** The list up to and including its first fatal or error finding. */
  function CutAfterFirstError(fs: seq<Finding>): seq<Finding> {
    if fs == [] then []
    else if IsFailing(fs[0]) then [fs[0]]
    else [fs[0]] + CutAfterFirstError(fs[1..])
  }

  function WithoutWarnings(fs: seq<Finding>): seq<Finding> {
    if fs == [] then []
    else (if fs[0].severity == Warning then [] else [fs[0]]) + WithoutWarnings(fs[1..])
  }

  datatype Outcome = Pass | Warn | Fail

  function ComputeOutcome(fs: seq<Finding>): Outcome {
    if exists i :: 0 <= i < |fs| && IsFailing(fs[i]) then Fail else if fs != [] then Warn else Pass
  }

  lemma {:induction false} StopIsCut(verdicts: seq<Verdict>, w: bool)
    requires Resolve(verdicts, w, false).Ok?
    ensures Resolve(verdicts, w, true) == Ok(CutAfterFirstError(Resolve(verdicts, w, false).value))
  {
    if verdicts != [] {
      StopIsCut(verdicts[1..], w);
      if verdicts[0].Found? && !(verdicts[0].finding.severity == Warning && !w) {
        var fs := Resolve(verdicts, w, false).value;
        assert fs[1..] == Resolve(verdicts[1..], w, false).value;
      }
    }
  }

  lemma {:induction false} OutcomeOfCut(fs: seq<Finding>)
    ensures ComputeOutcome(CutAfterFirstError(fs)) == ComputeOutcome(fs)
  {
    if fs != [] && !IsFailing(fs[0]) {
      OutcomeOfCut(fs[1..]);
      OutcomeStep(fs);
      OutcomeStep(CutAfterFirstError(fs));
      assert CutAfterFirstError(fs)[1..] == CutAfterFirstError(fs[1..]);
    }
  }

  lemma OutcomeStep(fs: seq<Finding>)
    requires fs != []
    ensures ComputeOutcome(fs) == Fail <==> IsFailing(fs[0]) || ComputeOutcome(fs[1..]) == Fail
  {
    assert forall i :: 1 <= i < |fs| ==> fs[1..][i - 1] == fs[i];
  }

  /**
   * The retry with `stop_on_first_error` returns the full list cut just after its first fatal or error
   * finding, and the document's outcome is the same.
   */
  lemma RetryKeepsOutcome(d: Document, patterns: seq<CompiledPattern>, w: bool)
    requires Resolve(PatternVerdicts(d, patterns), w, false).Ok?
    ensures var full := Resolve(PatternVerdicts(d, patterns), w, false).value;
            var retry := Resolve(PatternVerdicts(d, patterns), w, true);
            retry == Ok(CutAfterFirstError(full)) && ComputeOutcome(retry.value) == ComputeOutcome(full)
  {
    StopIsCut(PatternVerdicts(d, patterns), w);
    OutcomeOfCut(Resolve(PatternVerdicts(d, patterns), w, false).value);
  }

  /** When the full run raises, the retry raises too or has already failed the document. */
  lemma {:induction false} RetryOfRaisingRun(verdicts: seq<Verdict>, w: bool)
    requires Resolve(verdicts, w, false).Err?
    ensures var retry := Resolve(verdicts, w, true); retry.Err? || ComputeOutcome(retry.value) == Fail
  {
    if verdicts[0].Quiet? || (verdicts[0].Found? && !(IsFailing(verdicts[0].finding))) {
      RetryOfRaisingRun(verdicts[1..], w);
      var retry := Resolve(verdicts, w, true);
      if retry.Ok? && verdicts[0].Found? && !(verdicts[0].finding.severity == Warning && !w) {
        OutcomeStep(retry.value);
        assert retry.value[1..] == Resolve(verdicts[1..], w, true).value;
      }
    } else if verdicts[0].Found? {
      assert IsFailing([verdicts[0].finding][0]);
    }
  }

  /** Leaving warnings out filters the full list and changes nothing else. */
  lemma {:induction false} WarningsAreFiltered(verdicts: seq<Verdict>)
    ensures Resolve(verdicts, false, false) == match Resolve(verdicts, true, false)
                                               case Err(e) => Err(e)
                                               case Ok(fs) => Ok(WithoutWarnings(fs))
  {
    if verdicts != [] {
      WarningsAreFiltered(verdicts[1..]);
      if verdicts[0].Found? && Resolve(verdicts, true, false).Ok? {
        var tail := Resolve(verdicts[1..], true, false).value;
        var fs := [verdicts[0].finding] + tail;
        assert Resolve(verdicts, true, false) == Ok(fs);
        assert fs[1..] == tail;
        assert [] + WithoutWarnings(tail) == WithoutWarnings(tail);
      }
    }
  }

  // ---------- Findings name compiled rules ----------

  lemma {:induction false} ResolvedIsFound(verdicts: seq<Verdict>, w: bool, stop: bool, f: Finding)
    requires Resolve(verdicts, w, stop).Ok? && f in Resolve(verdicts, w, stop).value
    ensures Found(f) in verdicts
  {
    if verdicts[0] != Found(f) {
      ResolvedIsFound(verdicts[1..], w, stop, f);
    }
  }

  lemma {:induction false} ClaimFound(d: Document, rules: seq<CompiledRule>, nodes: seq<Node>, claimed: set<string>, f: Finding)
    returns (rule: CompiledRule)
    requires Found(f) in ClaimVerdicts(d, rules, nodes, claimed)
    ensures rule in rules && f.ruleId == rule.ruleId && f.severity == rule.severity && f.failureClass == rule.failureClass
  {
    if d.path(nodes[0]) !in claimed && Found(f) in RuleVerdicts(d, rules, nodes[0]) {
      var i :| 0 <= i < |rules| && VerdictOf(d, rules[i], nodes[0]) == Found(f);
      rule := rules[i];
    } else if d.path(nodes[0]) in claimed {
      rule := ClaimFound(d, rules, nodes[1..], claimed, f);
    } else {
      rule := ClaimFound(d, rules, nodes[1..], claimed + {d.path(nodes[0])}, f);
    }
  }

  lemma {:induction false} ContextFound(d: Document, contexts: seq<RuleContext>, claimed: set<string>, f: Finding)
    returns (c: RuleContext, rule: CompiledRule)
    requires Found(f) in ContextVerdicts(d, contexts, claimed)
    ensures c in contexts && rule in c.rules
    ensures f.ruleId == rule.ruleId && f.severity == rule.severity && f.failureClass == rule.failureClass
  {
    hide ClaimVerdicts;
    match d.select(contexts[0].expr) {
      case Ok(None) =>
        c, rule := ContextFound(d, contexts[1..], claimed, f);
      case Ok(Some(nodes)) =>
        if Found(f) in ClaimVerdicts(d, contexts[0].rules, nodes, claimed) {
          rule := ClaimFound(d, contexts[0].rules, nodes, claimed, f);
          c := contexts[0];
        } else {
          c, rule := ContextFound(d, contexts[1..], claimed + Paths(d, nodes), f);
        }
    }
  }

  lemma {:induction false} PatternFound(d: Document, patterns: seq<CompiledPattern>, f: Finding)
    returns (p: CompiledPattern, c: RuleContext, rule: CompiledRule)
    requires Found(f) in PatternVerdicts(d, patterns)
    ensures p in patterns && c in p && rule in c.rules
    ensures f.ruleId == rule.ruleId && f.severity == rule.severity && f.failureClass == rule.failureClass
  {
    hide ContextVerdicts;
    if Found(f) in ContextVerdicts(d, patterns[0], {}) {
      c, rule := ContextFound(d, patterns[0], {}, f);
      p := patterns[0];
    } else {
      p, c, rule := PatternFound(d, patterns[1..], f);
    }
  }

  /** Every finding of a run carries the id, severity and failure class of a compiled rule. */
  lemma FindingsNameCompiledRules(d: Document, patterns: seq<CompiledPattern>, w: bool, stop: bool, f: Finding)
    returns (p: CompiledPattern, c: RuleContext, rule: CompiledRule)
    requires Resolve(PatternVerdicts(d, patterns), w, stop).Ok? && f in Resolve(PatternVerdicts(d, patterns), w, stop).value
    ensures p in patterns && c in p && rule in c.rules
    ensures f.ruleId == rule.ruleId && f.severity == rule.severity && f.failureClass == rule.failureClass
  {
    hide Resolve, PatternVerdicts;
    ResolvedIsFound(PatternVerdicts(d, patterns), w, stop, f);
    p, c, rule := PatternFound(d, patterns, f);
  }

  // ---------- The loop itself ----------

  /**
   * A loop that meets `verdicts` and then `onward`, starting from `findings`: it has either ended the
   * run with the right result, or collected what `verdicts` contribute.
   */
  ghost predicate Met(findings: seq<Finding>, verdicts: seq<Verdict>, onward: seq<Verdict>, w: bool, stop: bool,
                      collected: seq<Finding>, done: bool, r: Result<seq<Finding>, Failure>)
  {
    var goal := Continue(findings, Resolve(verdicts + onward, w, stop));
    if done then r == goal else goal == Continue(collected, Resolve(onward, w, stop))
  }

  lemma EmptyContinue(r: Result<seq<Finding>, Failure>)
    ensures Continue([], r) == r
  {
    assert r.Ok? ==> [] + r.value == r.value;
  }

  lemma AppendContinue(findings: seq<Finding>, f: Finding, rest: Result<seq<Finding>, Failure>)
    ensures rest.Ok? ==> findings + ([f] + rest.value) == (findings + [f]) + rest.value
  {
  }

  /** The innermost loop: every rule of a claimed node's context. */
  method EvaluateRules(d: Document, rules: seq<CompiledRule>, node: Node, includeWarnings: bool, stop: bool,
                       findings: seq<Finding>, ghost onward: seq<Verdict>)
    returns (collected: seq<Finding>, done: bool, r: Result<seq<Finding>, Failure>)
    ensures Met(findings, RuleVerdicts(d, rules, node), onward, includeWarnings, stop, collected, done, r)
  {
    collected, done, r := findings, false, Ok([]);
    ghost var all := RuleVerdicts(d, rules, node);
    ghost var goal := Continue(findings, Resolve(all + onward, includeWarnings, stop));
    var i := 0;
    assert all[0..] == all;
    while i < |rules|
      invariant 0 <= i <= |rules| && !done
      invariant goal == Continue(collected, Resolve(all[i..] + onward, includeWarnings, stop))
    {
      assert (all[i..] + onward)[0] == all[i] && (all[i..] + onward)[1..] == all[i + 1..] + onward;
      match EvaluateRule(d, rules[i], node) {
        case Err(e) =>
          return collected, true, Err(e);
        case Ok(None) =>
        case Ok(Some(finding)) =>
          if !(finding.severity == Warning && !includeWarnings) {
            AppendContinue(collected, finding, Resolve(all[i + 1..] + onward, includeWarnings, stop));
            collected := collected + [finding];
            if stop && IsFailing(finding) {
              return collected, true, Ok(collected);
            }
          }
      }
      i := i + 1;
    }
    assert all[i..] + onward == onward;
  }

  lemma Rejoin(a: seq<Verdict>, b: seq<Verdict>, c: seq<Verdict>)
    ensures (a + b) + c == a + (b + c)
  {
  }

  /** The loop over the nodes one context selects, adding each new location to the claimed set. */
  method ClaimNodes(d: Document, rules: seq<CompiledRule>, nodes: seq<Node>, before: set<string>, includeWarnings: bool,
                    stop: bool, findings: seq<Finding>, ghost onward: seq<Verdict>)
    returns (claimed: set<string>, collected: seq<Finding>, done: bool, r: Result<seq<Finding>, Failure>)
    ensures Met(findings, ClaimVerdicts(d, rules, nodes, before), onward, includeWarnings, stop, collected, done, r)
    ensures !done ==> claimed == before + Paths(d, nodes)
  {
    hide Resolve, RuleVerdicts;
    claimed, collected, done, r := before, findings, false, Ok([]);
    ghost var goal := Continue(findings, Resolve(ClaimVerdicts(d, rules, nodes, before) + onward, includeWarnings, stop));
    var n := 0;
    assert nodes[0..] == nodes;
    while n < |nodes|
      invariant 0 <= n <= |nodes| && !done && claimed == before + Paths(d, nodes[..n])
      invariant goal == Continue(collected, Resolve(ClaimVerdicts(d, rules, nodes[n..], claimed) + onward, includeWarnings, stop))
    {
      assert nodes[n..][1..] == nodes[n + 1..] && nodes[..n + 1] == nodes[..n] + [nodes[n]];
      var location := d.path(nodes[n]);
      if location !in claimed {
        ghost var rest := ClaimVerdicts(d, rules, nodes[n + 1..], claimed + {location});
        Rejoin(RuleVerdicts(d, rules, nodes[n]), rest, onward);
        claimed := claimed + {location};
        collected, done, r := EvaluateRules(d, rules, nodes[n], includeWarnings, stop, collected, rest + onward);
        if done {
          return;
        }
      }
      n := n + 1;
    }
    assert nodes[..n] == nodes && nodes[n..] == [];
    assert [] + onward == onward;
  }

  /** The loop over one pattern's contexts, with the pattern's own claimed set. */
  method ValidatePattern(d: Document, contexts: seq<RuleContext>, includeWarnings: bool, stop: bool,
                         findings: seq<Finding>, ghost onward: seq<Verdict>)
    returns (collected: seq<Finding>, done: bool, r: Result<seq<Finding>, Failure>)
    ensures Met(findings, ContextVerdicts(d, contexts, {}), onward, includeWarnings, stop, collected, done, r)
  {
    hide Resolve, ClaimVerdicts;
    collected, done, r := findings, false, Ok([]);
    ghost var goal := Continue(findings, Resolve(ContextVerdicts(d, contexts, {}) + onward, includeWarnings, stop));
    var claimed: set<string> := {};
    var c := 0;
    assert contexts[0..] == contexts;
    while c < |contexts|
      invariant 0 <= c <= |contexts| && !done
      invariant goal == Continue(collected, Resolve(ContextVerdicts(d, contexts[c..], claimed) + onward, includeWarnings, stop))
    {
      assert contexts[c..][1..] == contexts[c + 1..];
      match d.select(contexts[c].expr) {
        case Err(_) =>
          RaiseFirst([Raised(SchematronCompileError)] + onward, includeWarnings, stop);
          return collected, true, Err(SchematronCompileError);
        case Ok(None) =>
        case Ok(Some(nodes)) =>
          ghost var rest := ContextVerdicts(d, contexts[c + 1..], claimed + Paths(d, nodes));
          Rejoin(ClaimVerdicts(d, contexts[c].rules, nodes, claimed), rest, onward);
          claimed, collected, done, r :=
            ClaimNodes(d, contexts[c].rules, nodes, claimed, includeWarnings, stop, collected, rest + onward);
          if done {
            return;
          }
      }
      c := c + 1;
    }
    assert contexts[c..] == [] && [] + onward == onward;
  }

  lemma RaiseFirst(verdicts: seq<Verdict>, w: bool, stop: bool)
    requires verdicts != [] && verdicts[0].Raised?
    ensures Resolve(verdicts, w, stop) == Err(verdicts[0].failure)
  {
  }

  /** `_validate_on_saxon_thread` after parsing. */
  method Validate(d: Document, patterns: seq<CompiledPattern>, includeWarnings: bool, stop: bool)
    returns (r: Result<seq<Finding>, Failure>)
    ensures r == Resolve(PatternVerdicts(d, patterns), includeWarnings, stop)
  {
    hide Resolve, ContextVerdicts;
    var findings: seq<Finding> := [];
    ghost var goal := Resolve(PatternVerdicts(d, patterns), includeWarnings, stop);
    EmptyContinue(goal);
    var p := 0;
    assert patterns[0..] == patterns;
    while p < |patterns|
      invariant 0 <= p <= |patterns|
      invariant goal == Continue(findings, Resolve(PatternVerdicts(d, patterns[p..]), includeWarnings, stop))
    {
      assert patterns[p..][1..] == patterns[p + 1..];
      var done;
      findings, done, r := ValidatePattern(d, patterns[p], includeWarnings, stop, findings,
                                           PatternVerdicts(d, patterns[p + 1..]));
      if done {
        return;
      }
      p := p + 1;
    }
    assert patterns[p..] == [];
    ResolveNothing(includeWarnings, stop);
    assert findings + [] == findings;
    return Ok(findings);
  }

  lemma ResolveNothing(w: bool, stop: bool)
    ensures Resolve([], w, stop) == Ok([])
  {
  }
}
