/**
 * What a run of the Schematron interpreter reports (apps/validator/src/validator/engine.py, lines 585-709): one
 * finding for each rule that fires at a node its context is the first to match, in order, and nothing else.
 */
module Findings {
  import opened Base
  import opened FirstMatch
  import opened Schematron
  import Redaction
  import Shapes

  // ---------- Where rules are evaluated ----------

  /** A pattern, one of its contexts, a place among the nodes that context selects, and one of its rules. */
  datatype Site = Site(pattern: nat, context: nat, place: nat, rule: nat)

  predicate Stands(d: Document, patterns: seq<CompiledPattern>, s: Site) {
    && s.pattern < |patterns| && s.context < |patterns[s.pattern]|
    && s.place < |Selected(d, patterns[s.pattern][s.context])| && s.rule < |patterns[s.pattern][s.context].rules|
  }

  function NodeAt(d: Document, patterns: seq<CompiledPattern>, s: Site): Node
    requires Stands(d, patterns, s)
  {
    Selected(d, patterns[s.pattern][s.context])[s.place]
  }

  function RuleAt(d: Document, patterns: seq<CompiledPattern>, s: Site): CompiledRule
    requires Stands(d, patterns, s)
  {
    patterns[s.pattern][s.context].rules[s.rule]
  }

  /** The node is the context's to judge: the first to match it in its pattern, and met there for the first time. */
  predicate Judges(d: Document, patterns: seq<CompiledPattern>, s: Site) {
    Stands(d, patterns, s) && Owns(d, patterns[s.pattern], s.context, s.place)
  }

  /** An assert fires when its test fails, a report when its test holds. */
  predicate Fires(d: Document, patterns: seq<CompiledPattern>, s: Site) {
    && Judges(d, patterns, s)
    && d.holds(NodeAt(d, patterns, s), RuleAt(d, patterns, s).test) == Ok(RuleAt(d, patterns, s).isReport)
  }

  /** The value a finding is about: an absent node reads as none, a blank one as the empty string. */
  predicate ReadsValue(d: Document, rule: CompiledRule, node: Node, raw: Option<string>) {
    if rule.valueXpath.None? then raw == None
    else
      var text := d.stringAt(node, rule.valueXpath.value);
      text.Ok? && raw == if text.value == Some("") && !d.present(node, rule.valueXpath.value) then None else text.value
  }

  /** The finding says which rule fired, where, and what shape the value there has. */
  ghost predicate Tells(d: Document, rule: CompiledRule, node: Node, f: Finding) {
    && f.ruleId == rule.ruleId && f.nativeRuleCode == rule.nativeRuleCode && f.severity == rule.severity
    && f.businessTerm == rule.businessTerm && f.failureClass == rule.failureClass
    && f.xpath == d.readable(d.path(node))
    && f.message == Redaction.MessageText(rule.expectedDescription, f.valueShape)
    && exists raw :: ReadsValue(d, rule, node, raw) && f.valueShape == Shapes.DeriveValueShape(d.unicode, raw, rule.expected)
  }

  /** The order of evaluation. */
  predicate Earlier(a: Site, b: Site) {
    || a.pattern < b.pattern
    || (a.pattern == b.pattern && (a.context < b.context
        || (a.context == b.context && (a.place < b.place || (a.place == b.place && a.rule < b.rule)))))
  }

  predicate Ascend(sites: seq<Site>) {
    forall i, j :: 0 <= i < j < |sites| ==> Earlier(sites[i], sites[j])
  }

  lemma AscendConcat(a: seq<Site>, b: seq<Site>)
    requires Ascend(a) && Ascend(b) && forall s, t :: s in a && t in b ==> Earlier(s, t)
    ensures Ascend(a + b)
  {
    hide Earlier;
  }

  // ---------- The sites in order ----------

  function RuleSites(p: nat, i: nat, k: nat, n: nat): (sites: seq<Site>)
    ensures |sites| == n && forall r :: 0 <= r < n ==> sites[r] == Site(p, i, k, r)
  {
    seq(n, r requires 0 <= r < n => Site(p, i, k, r))
  }

  /** The sites of one context up to the n-th node it selects. */
  function PlaceSites(d: Document, patterns: seq<CompiledPattern>, p: nat, i: nat, n: nat): seq<Site>
    requires p < |patterns| && i < |patterns[p]| && n <= |Selected(d, patterns[p][i])|
  {
    if n == 0 then []
    else PlaceSites(d, patterns, p, i, n - 1)
         + if Owns(d, patterns[p], i, n - 1) then RuleSites(p, i, n - 1, |patterns[p][i].rules|) else []
  }

  /** The sites of one pattern from a context on. */
  function ContextSites(d: Document, patterns: seq<CompiledPattern>, p: nat, i: nat): seq<Site>
    requires p < |patterns| && i <= |patterns[p]|
    decreases |patterns[p]| - i
  {
    if i == |patterns[p]| then []
    else PlaceSites(d, patterns, p, i, |Selected(d, patterns[p][i])|) + ContextSites(d, patterns, p, i + 1)
  }

  function Sites(d: Document, patterns: seq<CompiledPattern>, p: nat): seq<Site>
    requires p <= |patterns|
    decreases |patterns| - p
  {
    if p == |patterns| then [] else ContextSites(d, patterns, p, 0) + Sites(d, patterns, p + 1)
  }

  lemma InConcat<T>(x: T, a: seq<T>, b: seq<T>)
    ensures x in a + b <==> x in a || x in b
  {
  }

  lemma {:induction false} InPlaceSites(d: Document, patterns: seq<CompiledPattern>, p: nat, i: nat, n: nat, s: Site)
    requires p < |patterns| && i < |patterns[p]| && n <= |Selected(d, patterns[p][i])|
    ensures s in PlaceSites(d, patterns, p, i, n) <==> Judges(d, patterns, s) && s.pattern == p && s.context == i && s.place < n
  {
    if n > 0 {
      hide Owns, Selected;
      InPlaceSites(d, patterns, p, i, n - 1, s);
      var last := if Owns(d, patterns[p], i, n - 1) then RuleSites(p, i, n - 1, |patterns[p][i].rules|) else [];
      InConcat(s, PlaceSites(d, patterns, p, i, n - 1), last);
      if Judges(d, patterns, s) && s.pattern == p && s.context == i && s.place == n - 1 {
        assert last[s.rule] == s;
      }
    }
  }

  lemma {:induction false} InContextSites(d: Document, patterns: seq<CompiledPattern>, p: nat, i: nat, s: Site)
    requires p < |patterns| && i <= |patterns[p]|
    ensures s in ContextSites(d, patterns, p, i) <==> Judges(d, patterns, s) && s.pattern == p && i <= s.context
    decreases |patterns[p]| - i
  {
    if i < |patterns[p]| {
      var n := |Selected(d, patterns[p][i])|;
      InPlaceSites(d, patterns, p, i, n, s);
      InContextSites(d, patterns, p, i + 1, s);
      hide Owns, Selected, PlaceSites;
      InConcat(s, PlaceSites(d, patterns, p, i, n), ContextSites(d, patterns, p, i + 1));
    }
  }

  lemma {:induction false} InSites(d: Document, patterns: seq<CompiledPattern>, p: nat, s: Site)
    requires p <= |patterns|
    ensures s in Sites(d, patterns, p) <==> Judges(d, patterns, s) && p <= s.pattern
    decreases |patterns| - p
  {
    if p < |patterns| {
      InContextSites(d, patterns, p, 0, s);
      InSites(d, patterns, p + 1, s);
      hide Owns, Selected, ContextSites;
      InConcat(s, ContextSites(d, patterns, p, 0), Sites(d, patterns, p + 1));
    }
  }

  lemma RuleSitesAscend(p: nat, i: nat, k: nat, n: nat)
    ensures Ascend(RuleSites(p, i, k, n)) && Ascend([])
  {
  }

  lemma PlaceStep(d: Document, patterns: seq<CompiledPattern>, p: nat, i: nat, n: nat) returns (last: seq<Site>)
    requires p < |patterns| && i < |patterns[p]| && 0 < n <= |Selected(d, patterns[p][i])|
    ensures PlaceSites(d, patterns, p, i, n) == PlaceSites(d, patterns, p, i, n - 1) + last
    ensures last == [] || last == RuleSites(p, i, n - 1, |patterns[p][i].rules|)
  {
    last := if Owns(d, patterns[p], i, n - 1) then RuleSites(p, i, n - 1, |patterns[p][i].rules|) else [];
  }

  lemma EarlierByPlace(s: Site, t: Site)
    requires s.pattern == t.pattern && s.context == t.context && s.place < t.place
    ensures Earlier(s, t)
  {
  }

  lemma NoSites(d: Document, patterns: seq<CompiledPattern>, p: nat, i: nat)
    requires p < |patterns| && i < |patterns[p]|
    ensures PlaceSites(d, patterns, p, i, 0) == [] && Ascend([])
  {
  }

  lemma {:induction false} PlaceSitesAscend(d: Document, patterns: seq<CompiledPattern>, p: nat, i: nat, n: nat)
    requires p < |patterns| && i < |patterns[p]| && n <= |Selected(d, patterns[p][i])|
    ensures Ascend(PlaceSites(d, patterns, p, i, n))
  {
    hide *;
    NoSites(d, patterns, p, i);
    if n > 0 {
      var last := PlaceStep(d, patterns, p, i, n);
      PlaceSitesAscend(d, patterns, p, i, n - 1);
      RuleSitesAscend(p, i, n - 1, |patterns[p][i].rules|);
      var a := PlaceSites(d, patterns, p, i, n - 1);
      forall s, t | s in a && t in last ensures Earlier(s, t) {
        InPlaceSites(d, patterns, p, i, n - 1, s);
        EarlierByPlace(s, t);
      }
      AscendConcat(a, last);
    }
  }

  lemma {:induction false} ContextSitesAscend(d: Document, patterns: seq<CompiledPattern>, p: nat, i: nat)
    requires p < |patterns| && i <= |patterns[p]|
    ensures Ascend(ContextSites(d, patterns, p, i))
    decreases |patterns[p]| - i
  {
    if i < |patterns[p]| {
      var n := |Selected(d, patterns[p][i])|;
      PlaceSitesAscend(d, patterns, p, i, n);
      ContextSitesAscend(d, patterns, p, i + 1);
      hide Owns, Selected, PlaceSites, Judges;
      var a, b := PlaceSites(d, patterns, p, i, n), ContextSites(d, patterns, p, i + 1);
      forall s, t | s in a && t in b ensures Earlier(s, t) {
        InPlaceSites(d, patterns, p, i, n, s);
        InContextSites(d, patterns, p, i + 1, t);
      }
      AscendConcat(a, b);
    }
  }

  lemma {:induction false} SitesAscend(d: Document, patterns: seq<CompiledPattern>, p: nat)
    requires p <= |patterns|
    ensures Ascend(Sites(d, patterns, p))
    decreases |patterns| - p
  {
    if p < |patterns| {
      ContextSitesAscend(d, patterns, p, 0);
      SitesAscend(d, patterns, p + 1);
      hide Owns, Selected, ContextSites, Judges;
      var a, b := ContextSites(d, patterns, p, 0), Sites(d, patterns, p + 1);
      forall s, t | s in a && t in b ensures Earlier(s, t) {
        InContextSites(d, patterns, p, 0, s);
        InSites(d, patterns, p + 1, t);
      }
      AscendConcat(a, b);
    }
  }

  // ---------- A verdict for each site ----------

  ghost predicate Pairs(d: Document, patterns: seq<CompiledPattern>, sites: seq<Site>, verdicts: seq<Verdict>) {
    && |sites| == |verdicts|
    && forall j :: 0 <= j < |sites| ==>
         Stands(d, patterns, sites[j]) && verdicts[j] == VerdictOf(d, RuleAt(d, patterns, sites[j]), NodeAt(d, patterns, sites[j]))
  }

  lemma PairsConcat(d: Document, patterns: seq<CompiledPattern>, a: seq<Site>, x: seq<Verdict>, b: seq<Site>, y: seq<Verdict>)
    requires Pairs(d, patterns, a, x) && Pairs(d, patterns, b, y)
    ensures Pairs(d, patterns, a + b, x + y)
  {
    hide Stands, RuleAt, NodeAt, VerdictOf;
  }

  lemma RulesPair(d: Document, patterns: seq<CompiledPattern>, p: nat, i: nat, k: nat)
    requires p < |patterns| && i < |patterns[p]| && k < |Selected(d, patterns[p][i])|
    ensures Pairs(d, patterns, RuleSites(p, i, k, |patterns[p][i].rules|), RuleVerdicts(d, patterns[p][i].rules, Selected(d, patterns[p][i])[k]))
  {
    hide Selected, VerdictOf;
  }

  lemma {:induction false} PlacesPair(d: Document, patterns: seq<CompiledPattern>, p: nat, i: nat, n: nat)
    requires p < |patterns| && i < |patterns[p]| && n <= |Selected(d, patterns[p][i])|
    ensures Pairs(d, patterns, PlaceSites(d, patterns, p, i, n), Judged(d, patterns[p][i].rules, Owned(d, patterns[p], i, n)))
  {
    if n > 0 {
      hide Owns, Selected, Pairs, RuleVerdicts;
      PlacesPair(d, patterns, p, i, n - 1);
      var rules, node, before := patterns[p][i].rules, Selected(d, patterns[p][i])[n - 1], Owned(d, patterns[p], i, n - 1);
      if Owns(d, patterns[p], i, n - 1) {
        RulesPair(d, patterns, p, i, n - 1);
        assert (before + [node])[..|before|] == before;
        PairsConcat(d, patterns, PlaceSites(d, patterns, p, i, n - 1), Judged(d, rules, before), RuleSites(p, i, n - 1, |rules|),
                    RuleVerdicts(d, rules, node));
      } else {
        assert before + [] == before;
        assert PlaceSites(d, patterns, p, i, n - 1) + [] == PlaceSites(d, patterns, p, i, n - 1);
      }
    }
  }

  lemma {:induction false} ContextsPair(d: Document, patterns: seq<CompiledPattern>, p: nat, i: nat)
    requires p < |patterns| && i <= |patterns[p]| && Evaluable(d, patterns[p])
    ensures Pairs(d, patterns, ContextSites(d, patterns, p, i), Declared(d, patterns[p], i))
    decreases |patterns[p]| - i
  {
    if i < |patterns[p]| {
      var n := |Selected(d, patterns[p][i])|;
      assert d.select(patterns[p][i].expr).Ok?;
      hide Owned, Owns, Selected, Judged, PlaceSites, Pairs, Evaluable;
      PlacesPair(d, patterns, p, i, n);
      ContextsPair(d, patterns, p, i + 1);
      PairsConcat(d, patterns, PlaceSites(d, patterns, p, i, n), Judged(d, patterns[p][i].rules, Owned(d, patterns[p], i, n)),
                  ContextSites(d, patterns, p, i + 1), Declared(d, patterns[p], i + 1));
    }
  }

  ghost predicate AllEvaluable(d: Document, patterns: seq<CompiledPattern>) {
    forall p :: 0 <= p < |patterns| ==> Evaluable(d, patterns[p])
  }

  lemma {:induction false} SitesPair(d: Document, patterns: seq<CompiledPattern>, p: nat)
    requires p <= |patterns| && AllEvaluable(d, patterns)
    ensures Pairs(d, patterns, Sites(d, patterns, p), PatternVerdicts(d, patterns[p..]))
    decreases |patterns| - p
  {
    if p < |patterns| {
      assert Evaluable(d, patterns[p]);
      hide Declared, Pairs, Evaluable, ContextVerdicts, ContextSites;
      ClaimingIsFirstMatch(d, patterns[p]);
      ContextsPair(d, patterns, p, 0);
      SitesPair(d, patterns, p + 1);
      assert patterns[p..][0] == patterns[p] && patterns[p..][1..] == patterns[p + 1..];
      PairsConcat(d, patterns, ContextSites(d, patterns, p, 0), ContextVerdicts(d, patterns[p], {}),
                  Sites(d, patterns, p + 1), PatternVerdicts(d, patterns[p + 1..]));
    }
  }

  // ---------- What a verdict says ----------

  /** Neither the test nor the value fails, and nothing dirty would be reported. */
  ghost predicate Evaluates(d: Document, rule: CompiledRule, node: Node) {
    && d.holds(node, rule.test).Ok?
    && (d.holds(node, rule.test) == Ok(rule.isReport) ==>
          exists raw :: ReadsValue(d, rule, node, raw) && Clean(d, rule, raw))
  }

  predicate Clean(d: Document, rule: CompiledRule, raw: Option<string>) {
    var shape := Shapes.DeriveValueShape(d.unicode, raw, rule.expected);
    !d.dirty(Redaction.Probe(Some(Redaction.MessageText(rule.expectedDescription, shape)), Some(shape)))
  }

  /** The value can be read: there is no expression for it, or its evaluation does not fail. */
  ghost predicate HasValue(d: Document, rule: CompiledRule, node: Node) {
    exists raw :: ReadsValue(d, rule, node, raw)
  }

  lemma ValueIsRead(d: Document, rule: CompiledRule, node: Node)
    ensures RawValue(d, rule, node).Ok? ==> forall raw :: ReadsValue(d, rule, node, raw) <==> raw == RawValue(d, rule, node).value
    ensures RawValue(d, rule, node).Err? ==>
              RawValue(d, rule, node).error == SchematronCompileError && forall raw :: !ReadsValue(d, rule, node, raw)
  {
  }

  /** One rule at one node: it raises, stays quiet or reports, and in the last case tells what it should. */
  lemma VerdictSays(d: Document, rule: CompiledRule, node: Node)
    ensures var v := VerdictOf(d, rule, node);
            && (v.Raised? <==> !Evaluates(d, rule, node))
            && (v.Raised? ==>
                  (v.failure == RedactionInvariantError <==>
                     d.holds(node, rule.test) == Ok(rule.isReport) && HasValue(d, rule, node)))
            && (v.Found? <==> Evaluates(d, rule, node) && d.holds(node, rule.test) == Ok(rule.isReport))
            && (v.Found? ==> Tells(d, rule, node, v.finding))
  {
    ValueIsRead(d, rule, node);
    hide ReadsValue, RawValue, Shapes.DeriveValueShape, Redaction.MessageText, Redaction.Probe;
    if RawValue(d, rule, node).Ok? {
      assert ReadsValue(d, rule, node, RawValue(d, rule, node).value);
    }
  }

  // ---------- What a run reports ----------

  lemma {:induction false} ResolvesExactly(verdicts: seq<Verdict>, w: bool)
    ensures Resolve(verdicts, w, false).Ok? <==> forall j :: 0 <= j < |verdicts| ==> !verdicts[j].Raised?
  {
    if verdicts != [] {
      ResolvesExactly(verdicts[1..], w);
      assert forall j :: 0 < j < |verdicts| ==> verdicts[j] == verdicts[1..][j - 1];
      assert forall j :: 0 <= j < |verdicts[1..]| ==> verdicts[1..][j] == verdicts[j + 1];
    }
  }

  lemma {:induction false} UnevaluableRaises(d: Document, contexts: seq<RuleContext>, i: nat, k: nat)
    requires i <= k < |contexts| && d.select(contexts[k].expr).Err?
    ensures exists j :: 0 <= j < |Declared(d, contexts, i)| && Declared(d, contexts, i)[j].Raised?
    decreases k - i
  {
    var all := Declared(d, contexts, i);
    hide Judged, Owned, Selected;
    if d.select(contexts[i].expr).Err? {
      assert all[0].Raised?;
    } else {
      UnevaluableRaises(d, contexts, i + 1, k);
      var rest := Declared(d, contexts, i + 1);
      var j :| 0 <= j < |rest| && rest[j].Raised?;
      assert all[|all| - |rest| + j] == rest[j];
    }
  }

  lemma {:induction false} PatternIsPart(d: Document, patterns: seq<CompiledPattern>, p: nat, v: Verdict)
    requires p < |patterns| && v in ContextVerdicts(d, patterns[p], {})
    ensures v in PatternVerdicts(d, patterns)
  {
    hide ContextVerdicts;
    if p > 0 {
      PatternIsPart(d, patterns[1..], p - 1, v);
    }
  }

  lemma OkIsEvaluable(d: Document, patterns: seq<CompiledPattern>, w: bool)
    requires Resolve(PatternVerdicts(d, patterns), w, false).Ok?
    ensures AllEvaluable(d, patterns)
  {
    hide PatternVerdicts, Declared, ContextVerdicts, Resolve;
    var verdicts := PatternVerdicts(d, patterns);
    ResolvesExactly(verdicts, w);
    forall p, k | 0 <= p < |patterns| && 0 <= k < |patterns[p]| ensures d.select(patterns[p][k].expr).Ok? {
      if d.select(patterns[p][k].expr).Err? {
        UnevaluableRaises(d, patterns[p], 0, k);
        ClaimingIsFirstMatch(d, patterns[p]);
        var own := ContextVerdicts(d, patterns[p], {});
        var j :| 0 <= j < |own| && own[j].Raised?;
        PatternIsPart(d, patterns, p, own[j]);
      }
    }
  }

  /** The sites whose verdict is a finding. */
  function Found(sites: seq<Site>, verdicts: seq<Verdict>): seq<Site>
    requires |sites| == |verdicts|
  {
    if sites == [] then [] else (if verdicts[0].Found? then [sites[0]] else []) + Found(sites[1..], verdicts[1..])
  }

  lemma {:induction false} FoundAscend(sites: seq<Site>, verdicts: seq<Verdict>)
    requires |sites| == |verdicts| && Ascend(sites)
    ensures Ascend(Found(sites, verdicts)) && forall s :: s in Found(sites, verdicts) ==> s in sites
  {
    hide Earlier;
    if sites != [] {
      FoundAscend(sites[1..], verdicts[1..]);
      var rest := Found(sites[1..], verdicts[1..]);
      forall s | s in rest ensures Earlier(sites[0], s) {
        var k :| 0 <= k < |sites[1..]| && sites[1..][k] == s;
        assert s == sites[k + 1];
      }
      AscendConcat(if verdicts[0].Found? then [sites[0]] else [], rest);
    }
  }

  lemma {:induction false} FoundAre(sites: seq<Site>, verdicts: seq<Verdict>, j: nat)
    requires |sites| == |verdicts| && j < |sites| && verdicts[j].Found?
    ensures sites[j] in Found(sites, verdicts)
  {
    if j > 0 {
      FoundAre(sites[1..], verdicts[1..], j - 1);
    }
  }

  /** The findings of a run are those of the sites found, one by one. */
  lemma {:induction false} FoundResolve(d: Document, patterns: seq<CompiledPattern>, sites: seq<Site>, verdicts: seq<Verdict>, findings: seq<Finding>)
    requires Pairs(d, patterns, sites, verdicts) && Resolve(verdicts, true, false) == Ok(findings)
    ensures |Found(sites, verdicts)| == |findings|
    ensures forall j :: 0 <= j < |findings| ==>
              var s := Found(sites, verdicts)[j];
              Stands(d, patterns, s) && VerdictOf(d, RuleAt(d, patterns, s), NodeAt(d, patterns, s)) == Verdict.Found(findings[j])
  {
    hide Stands, RuleAt, NodeAt, VerdictOf;
    if sites != [] {
      var rest := Resolve(verdicts[1..], true, false).value;
      FoundResolve(d, patterns, sites[1..], verdicts[1..], rest);
      var f := Found(sites[1..], verdicts[1..]);
      if verdicts[0].Found? {
        assert findings == [verdicts[0].finding] + rest;
        assert Found(sites, verdicts) == [sites[0]] + f;
      } else {
        assert Found(sites, verdicts) == f;
      }
    }
  }

  /**
   * A run that goes through reports exactly the rules that fire, each once, in order: there is a finding for every
   * site where a context is the first of its pattern to match and the rule's test answers as it must, and each
   * finding tells its own site's rule, place and value.
   */
  lemma FindingsAreTheFiringRules(d: Document, patterns: seq<CompiledPattern>, findings: seq<Finding>) returns (sites: seq<Site>)
    requires Resolve(PatternVerdicts(d, patterns), true, false) == Ok(findings)
    ensures |sites| == |findings| && Ascend(sites)
    ensures forall s :: s in sites <==> Fires(d, patterns, s)
    ensures forall j :: 0 <= j < |sites| ==>
              Stands(d, patterns, sites[j]) && Tells(d, RuleAt(d, patterns, sites[j]), NodeAt(d, patterns, sites[j]), findings[j])
  {
    var all, verdicts := Sites(d, patterns, 0), PatternVerdicts(d, patterns);
    hide Resolve, PatternVerdicts, VerdictOf, Tells, Earlier, Ascend, Owns, Selected, Sites, Found;
    OkIsEvaluable(d, patterns, true);
    ResolvesExactly(verdicts, true);
    SitesPair(d, patterns, 0);
    assert patterns[0..] == patterns;
    SitesAscend(d, patterns, 0);
    FoundAscend(all, verdicts);
    FoundResolve(d, patterns, all, verdicts, findings);
    sites := Found(all, verdicts);
    forall s ensures s in sites <==> Fires(d, patterns, s) {
      InSites(d, patterns, 0, s);
      if s in sites {
        var j :| 0 <= j < |sites| && sites[j] == s;
        VerdictSays(d, RuleAt(d, patterns, s), NodeAt(d, patterns, s));
      } else if Fires(d, patterns, s) {
        var j :| 0 <= j < |all| && all[j] == s;
        VerdictSays(d, RuleAt(d, patterns, s), NodeAt(d, patterns, s));
        FoundAre(all, verdicts, j);
      }
    }
    forall j | 0 <= j < |sites| ensures Tells(d, RuleAt(d, patterns, sites[j]), NodeAt(d, patterns, sites[j]), findings[j]) {
      VerdictSays(d, RuleAt(d, patterns, sites[j]), NodeAt(d, patterns, sites[j]));
    }
  }

  /** A run raises unless every context and every rule at a node it judges can be evaluated, with warnings or without. */
  lemma RunsThroughExactly(d: Document, patterns: seq<CompiledPattern>, w: bool)
    ensures Resolve(PatternVerdicts(d, patterns), w, false).Ok? <==>
            AllEvaluable(d, patterns)
            && forall s :: Judges(d, patterns, s) ==> Evaluates(d, RuleAt(d, patterns, s), NodeAt(d, patterns, s))
  {
    var all, verdicts := Sites(d, patterns, 0), PatternVerdicts(d, patterns);
    hide Resolve, PatternVerdicts, VerdictOf, Evaluates, Owns, Selected, Sites, AllEvaluable;
    ResolvesExactly(verdicts, w);
    if Resolve(verdicts, w, false).Ok? {
      OkIsEvaluable(d, patterns, w);
    }
    if AllEvaluable(d, patterns) {
      SitesPair(d, patterns, 0);
      assert patterns[0..] == patterns;
      forall s | Judges(d, patterns, s)
        ensures exists j :: 0 <= j < |all| && all[j] == s && (verdicts[j].Raised? <==> !Evaluates(d, RuleAt(d, patterns, s), NodeAt(d, patterns, s)))
      {
        InSites(d, patterns, 0, s);
        var j :| 0 <= j < |all| && all[j] == s;
        VerdictSays(d, RuleAt(d, patterns, s), NodeAt(d, patterns, s));
      }
      forall j | 0 <= j < |all|
        ensures Judges(d, patterns, all[j])
        ensures verdicts[j].Raised? <==> !Evaluates(d, RuleAt(d, patterns, all[j]), NodeAt(d, patterns, all[j]))
      {
        InSites(d, patterns, 0, all[j]);
        VerdictSays(d, RuleAt(d, patterns, all[j]), NodeAt(d, patterns, all[j]));
      }
    }
  }

  lemma {:induction false} FirstRaised(verdicts: seq<Verdict>, w: bool) returns (j: nat)
    requires Resolve(verdicts, w, false).Err?
    ensures j < |verdicts| && verdicts[j] == Raised(Resolve(verdicts, w, false).error) && forall i :: 0 <= i < j ==> !verdicts[i].Raised?
  {
    if verdicts[0].Raised? {
      j := 0;
    } else {
      var k := FirstRaised(verdicts[1..], w);
      j := k + 1;
      assert forall i :: 0 < i < j ==> verdicts[i] == verdicts[1..][i - 1];
    }
  }

  lemma EarlierIsBefore(sites: seq<Site>, i: nat, j: nat)
    requires Ascend(sites) && i < |sites| && j < |sites|
    ensures Earlier(sites[i], sites[j]) <==> i < j
  {
    if i < j {
      AscendAt(sites, i, j);
    } else if j < i {
      AscendAt(sites, j, i);
    }
  }

  lemma AscendAt(sites: seq<Site>, i: nat, j: nat)
    requires Ascend(sites) && i < j < |sites|
    ensures Earlier(sites[i], sites[j]) && !Earlier(sites[j], sites[i])
  {
  }

  /** The j-th evaluation of a run, and what comes of it. */
  lemma AtSite(d: Document, patterns: seq<CompiledPattern>, j: nat)
    requires AllEvaluable(d, patterns) && j < |Sites(d, patterns, 0)|
    ensures |PatternVerdicts(d, patterns)| == |Sites(d, patterns, 0)|
    ensures var s, v := Sites(d, patterns, 0)[j], PatternVerdicts(d, patterns)[j];
            && Judges(d, patterns, s) && (v.Raised? <==> !Evaluates(d, RuleAt(d, patterns, s), NodeAt(d, patterns, s)))
            && (v.Raised? ==>
                  (v.failure == RedactionInvariantError
                   <==> Fires(d, patterns, s) && HasValue(d, RuleAt(d, patterns, s), NodeAt(d, patterns, s))))
  {
    hide PatternVerdicts, VerdictOf, Evaluates, Owns, Selected, Sites, AllEvaluable, HasValue;
    SitesPair(d, patterns, 0);
    assert patterns[0..] == patterns;
    var s := Sites(d, patterns, 0)[j];
    InSites(d, patterns, 0, s);
    VerdictSays(d, RuleAt(d, patterns, s), NodeAt(d, patterns, s));
  }

  lemma SameLengths(d: Document, patterns: seq<CompiledPattern>)
    requires AllEvaluable(d, patterns)
    ensures |PatternVerdicts(d, patterns)| == |Sites(d, patterns, 0)|
  {
    hide PatternVerdicts, Sites, AllEvaluable;
    SitesPair(d, patterns, 0);
    assert patterns[0..] == patterns;
  }

  /**
   * A run that raises over contexts that can be evaluated raises the failure of the first evaluation that fails; it is the
   * redaction check's exactly when that rule's test fires and its value can be read.
   */
  lemma RaisesTheFirstFailure(d: Document, patterns: seq<CompiledPattern>, w: bool) returns (s: Site)
    requires AllEvaluable(d, patterns) && Resolve(PatternVerdicts(d, patterns), w, false).Err?
    ensures Judges(d, patterns, s) && !Evaluates(d, RuleAt(d, patterns, s), NodeAt(d, patterns, s))
    ensures forall t :: Judges(d, patterns, t) && Earlier(t, s) ==> Evaluates(d, RuleAt(d, patterns, t), NodeAt(d, patterns, t))
    ensures Resolve(PatternVerdicts(d, patterns), w, false).error == RedactionInvariantError
            <==> Fires(d, patterns, s) && HasValue(d, RuleAt(d, patterns, s), NodeAt(d, patterns, s))
  {
    var all, verdicts := Sites(d, patterns, 0), PatternVerdicts(d, patterns);
    hide Resolve, PatternVerdicts, Evaluates, Sites, AllEvaluable, HasValue, Earlier, Ascend, Owns, Selected, Fires;
    SitesAscend(d, patterns, 0);
    SameLengths(d, patterns);
    var j := FirstRaised(verdicts, w);
    s := all[j];
    AtSite(d, patterns, j);
    forall t | Judges(d, patterns, t) && Earlier(t, s) ensures Evaluates(d, RuleAt(d, patterns, t), NodeAt(d, patterns, t)) {
      InSites(d, patterns, 0, t);
      var i :| 0 <= i < |all| && all[i] == t;
      EarlierIsBefore(all, i, j);
      AtSite(d, patterns, i);
    }
  }

  /** Every assert the document meets holds, and no report it meets does. */
  ghost predicate Conforms(d: Document, patterns: seq<CompiledPattern>) {
    forall s :: Judges(d, patterns, s) ==>
      d.holds(NodeAt(d, patterns, s), RuleAt(d, patterns, s).test) == Ok(!RuleAt(d, patterns, s).isReport)
  }

  /** The run of a document is empty, and its outcome a pass, exactly when every context can be evaluated and the document conforms. */
  lemma EmptyExactlyWhenConforming(d: Document, patterns: seq<CompiledPattern>)
    ensures Resolve(PatternVerdicts(d, patterns), true, false) == Ok([]) <==> AllEvaluable(d, patterns) && Conforms(d, patterns)
    ensures ComputeOutcome([]) == Pass
  {
    hide Resolve, PatternVerdicts, Owns, Selected, AllEvaluable;
    RunsThroughExactly(d, patterns, true);
    var r := Resolve(PatternVerdicts(d, patterns), true, false);
    if r.Ok? {
      var sites := FindingsAreTheFiringRules(d, patterns, r.value);
      if r.value == [] {
        forall s | Judges(d, patterns, s)
          ensures d.holds(NodeAt(d, patterns, s), RuleAt(d, patterns, s).test) == Ok(!RuleAt(d, patterns, s).isReport)
        {
          var answer := d.holds(NodeAt(d, patterns, s), RuleAt(d, patterns, s).test);
          assert !Fires(d, patterns, s) && Evaluates(d, RuleAt(d, patterns, s), NodeAt(d, patterns, s));
          assert answer == Ok(answer.value) && answer.value != RuleAt(d, patterns, s).isReport;
        }
      } else {
        assert Fires(d, patterns, sites[0]);
      }
    }
  }

  /** The outcome is that of the most severe rule that fires. */
  lemma OutcomeIsOfTheFiringRules(d: Document, patterns: seq<CompiledPattern>, findings: seq<Finding>)
    requires Resolve(PatternVerdicts(d, patterns), true, false) == Ok(findings)
    ensures ComputeOutcome(findings) == Pass <==> forall s :: !Fires(d, patterns, s)
    ensures ComputeOutcome(findings) == Fail <==> exists s :: Fires(d, patterns, s) && RuleAt(d, patterns, s).severity != Warning
  {
    var sites := FindingsAreTheFiringRules(d, patterns, findings);
    OutcomeByIndex(findings);
    hide Resolve, PatternVerdicts, Fires, Earlier, ComputeOutcome, Tells;
    if findings != [] {
      assert Fires(d, patterns, sites[0]);
    }
    forall j | 0 <= j < |findings|
      ensures Fires(d, patterns, sites[j]) && Stands(d, patterns, sites[j])
      ensures IsFailing(findings[j]) <==> RuleAt(d, patterns, sites[j]).severity != Warning
    {
      assert sites[j] in sites;
      TellsSeverity(d, RuleAt(d, patterns, sites[j]), NodeAt(d, patterns, sites[j]), findings[j]);
    }
    FiringStands(d, patterns);
  }

  lemma OutcomeByIndex(findings: seq<Finding>)
    ensures ComputeOutcome(findings) == Pass <==> findings == []
    ensures ComputeOutcome(findings) == Fail <==> exists j :: 0 <= j < |findings| && IsFailing(findings[j])
  {
  }

  lemma TellsSeverity(d: Document, rule: CompiledRule, node: Node, f: Finding)
    requires Tells(d, rule, node, f)
    ensures f.severity == rule.severity
  {
  }

  lemma FiringStands(d: Document, patterns: seq<CompiledPattern>)
    ensures forall s :: Fires(d, patterns, s) ==> Stands(d, patterns, s)
  {
  }

  /** A location is judged by the first context of a pattern that matches it, with each of that context's rules, at one site. */
  lemma FirstToMatchJudges(d: Document, patterns: seq<CompiledPattern>, p: nat, i: nat, r: nat, location: string)
    requires p < |patterns| && i < |patterns[p]| && r < |patterns[p][i].rules|
    ensures IsFirst(d, patterns[p], i, location) <==>
            exists k: nat :: Judges(d, patterns, Site(p, i, k, r)) && d.path(NodeAt(d, patterns, Site(p, i, k, r))) == location
    ensures forall k: nat, l: nat :: Judges(d, patterns, Site(p, i, k, r)) && Judges(d, patterns, Site(p, i, l, r)) ==>
              (d.path(NodeAt(d, patterns, Site(p, i, k, r))) == d.path(NodeAt(d, patterns, Site(p, i, l, r))) <==> k == l)
  {
    var nodes := Selected(d, patterns[p][i]);
    hide Selected, NoneBefore;
    if IsFirst(d, patterns[p], i, location) {
      var k := FirstPlace(d, nodes, location);
      assert Judges(d, patterns, Site(p, i, k, r));
    }
  }

  lemma {:induction false} FirstPlace(d: Document, nodes: seq<Node>, location: string) returns (k: nat)
    requires location in Paths(d, nodes)
    ensures k < |nodes| && d.path(nodes[k]) == location && forall h :: 0 <= h < k ==> d.path(nodes[h]) != location
  {
    if d.path(nodes[0]) == location {
      k := 0;
    } else {
      k := FirstPlace(d, nodes[1..], location);
      k := k + 1;
    }
  }
}
