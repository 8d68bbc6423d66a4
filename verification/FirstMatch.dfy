/**
 * The claiming loop of the Schematron interpreter computes the declarative reading: each node is judged
 * by the first context that matches it, and by no other. And what dropping rules without assertions
 * (engine.py, line 361) does to that reading.
 */
module FirstMatch {
  import opened Base
  import Shapes
  import opened Schematron

  // ---------- The declarative reading ----------

  function Selected(d: Document, c: RuleContext): seq<Node> {
    match d.select(c.expr)
    case Ok(Some(nodes)) => nodes
    case _ => []
  }

  predicate Matches(d: Document, c: RuleContext, location: string) {
    location in Paths(d, Selected(d, c))
  }

  predicate NoneBefore(d: Document, contexts: seq<RuleContext>, i: int, location: string)
    requires i <= |contexts|
  {
    forall j :: 0 <= j < i ==> !Matches(d, contexts[j], location)
  }

  /** Context i is the first of the pattern to match the location. */
  predicate IsFirst(d: Document, contexts: seq<RuleContext>, i: int, location: string)
    requires 0 <= i < |contexts|
  {
    Matches(d, contexts[i], location) && NoneBefore(d, contexts, i, location)
  }

  /** The k-th node context i selects is context i's to judge: no earlier context matches it, and it was not met before. */
  predicate Owns(d: Document, contexts: seq<RuleContext>, i: int, k: int)
    requires 0 <= i < |contexts| && 0 <= k < |Selected(d, contexts[i])|
  {
    var nodes := Selected(d, contexts[i]);
    && NoneBefore(d, contexts, i, d.path(nodes[k]))
    && (forall h :: 0 <= h < k ==> d.path(nodes[h]) != d.path(nodes[k]))
  }

  function Owned(d: Document, contexts: seq<RuleContext>, i: int, n: nat): (owned: seq<Node>)
    requires 0 <= i < |contexts| && n <= |Selected(d, contexts[i])|
  {
    if n == 0 then []
    else Owned(d, contexts, i, n - 1) + if Owns(d, contexts, i, n - 1) then [Selected(d, contexts[i])[n - 1]] else []
  }

  function Judged(d: Document, rules: seq<CompiledRule>, nodes: seq<Node>): seq<Verdict> {
    if nodes == [] then [] else Judged(d, rules, nodes[..|nodes| - 1]) + RuleVerdicts(d, rules, nodes[|nodes| - 1])
  }

  /** Contexts i, i + 1 and so on, in order, each judging its own nodes with all of its rules. */
  function Declared(d: Document, contexts: seq<RuleContext>, i: nat): seq<Verdict>
    requires i <= |contexts|
    decreases |contexts| - i
  {
    if i == |contexts| then []
    else if d.select(contexts[i].expr).Err? then [Raised(SchematronCompileError)]
    else Judged(d, contexts[i].rules, Owned(d, contexts, i, |Selected(d, contexts[i])|)) + Declared(d, contexts, i + 1)
  }

  lemma PathsOfPrefix(d: Document, nodes: seq<Node>, n: nat)
    requires n < |nodes|
    ensures Paths(d, nodes[..n + 1]) == Paths(d, nodes[..n]) + {d.path(nodes[n])}
    ensures d.path(nodes[n]) in Paths(d, nodes[..n]) <==> exists h :: 0 <= h < n && d.path(nodes[h]) == d.path(nodes[n])
  {
    assert nodes[..n + 1] == nodes[..n] + [nodes[n]];
    assert forall h :: 0 <= h < n ==> nodes[..n][h] == nodes[h];
  }

  ghost predicate ClaimedBefore(d: Document, contexts: seq<RuleContext>, i: nat, claimed: set<string>)
    requires i <= |contexts|
  {
    forall location :: location in claimed <==> exists j :: 0 <= j < i && Matches(d, contexts[j], location)
  }

  lemma UnseenIsOwned(d: Document, contexts: seq<RuleContext>, i: nat, claimed: set<string>, n: nat)
    requires i < |contexts| && n < |Selected(d, contexts[i])| && ClaimedBefore(d, contexts, i, claimed)
    ensures var nodes := Selected(d, contexts[i]);
            d.path(nodes[n]) in claimed + Paths(d, nodes[..n]) <==> !Owns(d, contexts, i, n)
  {
    var nodes := Selected(d, contexts[i]);
    PathsOfPrefix(d, nodes, n);
    hide Matches, Paths, Selected;
  }

  lemma {:induction false} ClaimIsOwned(d: Document, contexts: seq<RuleContext>, i: nat, claimed: set<string>, n: nat)
    requires i < |contexts| && n <= |Selected(d, contexts[i])| && ClaimedBefore(d, contexts, i, claimed)
    ensures var nodes := Selected(d, contexts[i]);
            Judged(d, contexts[i].rules, Owned(d, contexts, i, |nodes|))
            == Judged(d, contexts[i].rules, Owned(d, contexts, i, n))
               + ClaimVerdicts(d, contexts[i].rules, nodes[n..], claimed + Paths(d, nodes[..n]))
    decreases |Selected(d, contexts[i])| - n
  {
    hide Matches, RuleVerdicts, Owns, Paths, Selected, ClaimedBefore;
    var nodes, rules := Selected(d, contexts[i]), contexts[i].rules;
    if n < |nodes| {
      ClaimIsOwned(d, contexts, i, claimed, n + 1);
      PathsOfPrefix(d, nodes, n);
      UnseenIsOwned(d, contexts, i, claimed, n);
      assert nodes[n..][0] == nodes[n] && nodes[n..][1..] == nodes[n + 1..];
      var seen := claimed + Paths(d, nodes[..n]);
      assert claimed + Paths(d, nodes[..n + 1]) == seen + {d.path(nodes[n])};
      var owned := Owned(d, contexts, i, n);
      if Owns(d, contexts, i, n) {
        assert (owned + [nodes[n]])[..|owned|] == owned;
        Rejoin(Judged(d, rules, owned), RuleVerdicts(d, rules, nodes[n]), ClaimVerdicts(d, rules, nodes[n + 1..], seen + {d.path(nodes[n])}));
      } else {
        assert owned + [] == owned && seen + {d.path(nodes[n])} == seen;
      }
    } else {
      assert nodes[n..] == [];
    }
  }

  lemma ClaimedNext(d: Document, contexts: seq<RuleContext>, i: nat, claimed: set<string>)
    requires i < |contexts| && ClaimedBefore(d, contexts, i, claimed)
    ensures ClaimedBefore(d, contexts, i + 1, claimed + Paths(d, Selected(d, contexts[i])))
  {
    assert forall location :: Matches(d, contexts[i], location) <==> location in Paths(d, Selected(d, contexts[i]));
    hide Matches, Paths, Selected;
  }

  lemma {:induction false} ClaimingFrom(d: Document, contexts: seq<RuleContext>, i: nat, claimed: set<string>)
    requires i <= |contexts| && ClaimedBefore(d, contexts, i, claimed)
    ensures ContextVerdicts(d, contexts[i..], claimed) == Declared(d, contexts, i)
    decreases |contexts| - i
  {
    hide Matches, ClaimVerdicts, Owned, Judged, ClaimedBefore;
    if i < |contexts| && d.select(contexts[i].expr).Ok? {
      var nodes := Selected(d, contexts[i]);
      assert contexts[i..][0] == contexts[i] && contexts[i..][1..] == contexts[i + 1..];
      ClaimedNext(d, contexts, i, claimed);
      ClaimingFrom(d, contexts, i + 1, claimed + Paths(d, nodes));
      ClaimIsOwned(d, contexts, i, claimed, 0);
      NothingOwnedYet(d, contexts, i);
      assert nodes[0..] == nodes && claimed + Paths(d, nodes[..0]) == claimed;
      if nodes == [] {
        NothingToClaim(d, contexts[i].rules, claimed);
        assert claimed + Paths(d, nodes) == claimed;
      }
    }
  }

  lemma NothingOwnedYet(d: Document, contexts: seq<RuleContext>, i: nat)
    requires i < |contexts|
    ensures Judged(d, contexts[i].rules, Owned(d, contexts, i, 0)) == []
  {
  }

  lemma NothingToClaim(d: Document, rules: seq<CompiledRule>, claimed: set<string>)
    ensures ClaimVerdicts(d, rules, [], claimed) == []
  {
  }

  /** The loop with the mutable claimed set meets exactly the declared verdicts, in the declared order. */
  lemma ClaimingIsFirstMatch(d: Document, contexts: seq<RuleContext>)
    ensures ContextVerdicts(d, contexts, {}) == Declared(d, contexts, 0)
  {
    assert contexts[0..] == contexts;
    ClaimingFrom(d, contexts, 0, {});
  }

  lemma {:induction false} OwnedPaths(d: Document, contexts: seq<RuleContext>, i: int, n: nat, location: string)
    requires 0 <= i < |contexts| && n <= |Selected(d, contexts[i])|
    ensures location in Paths(d, Owned(d, contexts, i, n))
            <==> location in Paths(d, Selected(d, contexts[i])[..n]) && NoneBefore(d, contexts, i, location)
  {
    hide *;
    if n == 0 {
      NoPathsYet(d, contexts, i);
    } else {
      OwnedPaths(d, contexts, i, n - 1, location);
      OwnedGrows(d, contexts, i, n);
      PathsOfPrefix(d, Selected(d, contexts[i]), n - 1);
      LastIsDecided(d, contexts, i, n);
    }
  }

  lemma NoPathsYet(d: Document, contexts: seq<RuleContext>, i: int)
    requires 0 <= i < |contexts|
    ensures Paths(d, Owned(d, contexts, i, 0)) == {} && Paths(d, Selected(d, contexts[i])[..0]) == {}
  {
    hide Selected;
  }

  lemma OwnedGrows(d: Document, contexts: seq<RuleContext>, i: int, n: nat)
    requires 0 <= i < |contexts| && 0 < n <= |Selected(d, contexts[i])|
    ensures Paths(d, Owned(d, contexts, i, n))
            == Paths(d, Owned(d, contexts, i, n - 1))
               + if Owns(d, contexts, i, n - 1) then {d.path(Selected(d, contexts[i])[n - 1])} else {}
  {
    var node, before := Selected(d, contexts[i])[n - 1], Owned(d, contexts, i, n - 1);
    assert (before + [node])[..|before|] == before && (before + [node])[..|before| + 1] == before + [node];
    hide Matches, Selected, Paths, Owns;
    if Owns(d, contexts, i, n - 1) {
      PathsOfPrefix(d, before + [node], |before|);
    } else {
      assert before + [] == before;
    }
  }

  lemma LastIsDecided(d: Document, contexts: seq<RuleContext>, i: int, n: nat)
    requires 0 <= i < |contexts| && 0 < n <= |Selected(d, contexts[i])|
    ensures var nodes := Selected(d, contexts[i]);
            Owns(d, contexts, i, n - 1) <==>
            d.path(nodes[n - 1]) !in Paths(d, nodes[..n - 1])
            && NoneBefore(d, contexts, i, d.path(nodes[n - 1]))
  {
    PathsOfPrefix(d, Selected(d, contexts[i]), n - 1);
    hide Matches, Selected, Paths, NoneBefore;
  }

  lemma {:induction false} OwnedDistinct(d: Document, contexts: seq<RuleContext>, i: int, n: nat)
    requires 0 <= i < |contexts| && n <= |Selected(d, contexts[i])|
    ensures var owned := Owned(d, contexts, i, n);
            forall a, b :: 0 <= a < b < |owned| ==> d.path(owned[a]) != d.path(owned[b])
  {
    if n > 0 {
      OwnedDistinct(d, contexts, i, n - 1);
      var nodes, before := Selected(d, contexts[i]), Owned(d, contexts, i, n - 1);
      LastIsDecided(d, contexts, i, n);
      OwnedPaths(d, contexts, i, n - 1, d.path(nodes[n - 1]));
      assert forall a :: 0 <= a < |before| ==> d.path(before[a]) in Paths(d, before);
      hide Matches, Selected, Paths;
    }
  }

  /** A context judges exactly the locations it is the first to match, and each of them once. */
  lemma JudgedOnceByTheFirst(d: Document, contexts: seq<RuleContext>, i: int)
    requires 0 <= i < |contexts|
    ensures var owned := Owned(d, contexts, i, |Selected(d, contexts[i])|);
            && (forall location :: location in Paths(d, owned) <==> IsFirst(d, contexts, i, location))
            && (forall a, b :: 0 <= a < b < |owned| ==> d.path(owned[a]) != d.path(owned[b]))
  {
    var nodes := Selected(d, contexts[i]);
    assert nodes[..|nodes|] == nodes;
    OwnedDistinct(d, contexts, i, |nodes|);
    forall location ensures location in Paths(d, Owned(d, contexts, i, |nodes|)) <==> IsFirst(d, contexts, i, location) {
      OwnedPaths(d, contexts, i, |nodes|, location);
    }
  }

  // ---------- Rules without assertions ----------

  /** What `_load_schematron` keeps of a pattern: the rules with at least one assertion. */
  function Compiled(contexts: seq<RuleContext>): seq<RuleContext> {
    if contexts == [] then []
    else (if contexts[0].rules == [] then [] else [contexts[0]]) + Compiled(contexts[1..])
  }

  ghost predicate Evaluable(d: Document, contexts: seq<RuleContext>) {
    forall i :: 0 <= i < |contexts| ==> d.select(contexts[i].expr).Ok?
  }

  /** Rule i has assertions and its context is spelled like that of rule k. */
  predicate Shadows(contexts: seq<RuleContext>, i: int, k: int)
    requires 0 <= i < |contexts| && 0 <= k < |contexts|
  {
    contexts[i].rules != [] && contexts[i].expr == contexts[k].expr
  }

  /**
   * Every empty rule j before a non-empty rule k is harmless: an earlier non-empty rule already takes
   * all that k matches, or all that j matches.
   */
  ghost predicate EmptyRulesHarmless(contexts: seq<RuleContext>) {
    forall j, k :: 0 <= j < k < |contexts| && contexts[j].rules == [] && contexts[k].rules != [] ==>
      exists i :: 0 <= i < k && (Shadows(contexts, i, k) || (i < j && Shadows(contexts, i, j)))
  }

  function Findings(d: Document, contexts: seq<RuleContext>): Result<seq<Finding>, Failure> {
    Resolve(ContextVerdicts(d, contexts, {}), true, false)
  }

  lemma {:induction false} ClaimAgree(d: Document, rules: seq<CompiledRule>, nodes: seq<Node>, s: set<string>, t: set<string>)
    requires forall n :: n in nodes ==> (d.path(n) in s <==> d.path(n) in t)
    ensures ClaimVerdicts(d, rules, nodes, s) == ClaimVerdicts(d, rules, nodes, t)
  {
    if nodes != [] {
      var first := {d.path(nodes[0])};
      ClaimAgree(d, rules, nodes[1..], s, t);
      ClaimAgree(d, rules, nodes[1..], s + first, t + first);
    }
  }

  lemma {:induction false} NoRulesNoVerdicts(d: Document, nodes: seq<Node>, claimed: set<string>)
    ensures ClaimVerdicts(d, [], nodes, claimed) == []
  {
    if nodes != [] {
      NoRulesNoVerdicts(d, nodes[1..], claimed);
      NoRulesNoVerdicts(d, nodes[1..], claimed + {d.path(nodes[0])});
    }
  }

  ghost predicate ClaimedBy(d: Document, contexts: seq<RuleContext>, k: nat, all: set<string>, kept: set<string>)
    requires k <= |contexts|
  {
    && (forall location :: location in all <==> exists j :: 0 <= j < k && Matches(d, contexts[j], location))
    && (forall location :: location in kept <==>
          exists j :: 0 <= j < k && contexts[j].rules != [] && Matches(d, contexts[j], location))
  }

  lemma ClaimedByNext(d: Document, contexts: seq<RuleContext>, k: nat, all: set<string>, kept: set<string>)
    requires k < |contexts| && ClaimedBy(d, contexts, k, all, kept)
    ensures var nodes := Selected(d, contexts[k]);
            ClaimedBy(d, contexts, k + 1, all + Paths(d, nodes), if contexts[k].rules == [] then kept else kept + Paths(d, nodes))
  {
    var nodes := Selected(d, contexts[k]);
    assert forall location :: Matches(d, contexts[k], location) <==> location in Paths(d, nodes);
    hide Matches, Paths;
  }

  /** What a harmless pattern's rule k selects is claimed in one reading exactly when it is in the other. */
  lemma SameClaims(d: Document, contexts: seq<RuleContext>, k: nat, all: set<string>, kept: set<string>, location: string)
    requires EmptyRulesHarmless(contexts) && k < |contexts| && contexts[k].rules != []
    requires ClaimedBy(d, contexts, k, all, kept) && Matches(d, contexts[k], location)
    ensures location in all <==> location in kept
  {
    assert forall i :: 0 <= i < k && Shadows(contexts, i, k) ==> Matches(d, contexts[i], location);
    if location in all {
      var j :| 0 <= j < k && Matches(d, contexts[j], location);
      assert forall i :: 0 <= i < j && Shadows(contexts, i, j) ==> Matches(d, contexts[i], location);
    }
    hide Matches;
  }

  lemma {:induction false} DroppedFrom(d: Document, contexts: seq<RuleContext>, k: nat, all: set<string>, kept: set<string>)
    requires EmptyRulesHarmless(contexts) && Evaluable(d, contexts) && k <= |contexts|
    requires ClaimedBy(d, contexts, k, all, kept)
    ensures ContextVerdicts(d, contexts[k..], all) == ContextVerdicts(d, Compiled(contexts[k..]), kept)
    decreases |contexts| - k
  {
    if k < |contexts| {
      var c, nodes := contexts[k], Selected(d, contexts[k]);
      assert contexts[k..][0] == c && contexts[k..][1..] == contexts[k + 1..];
      ClaimedByNext(d, contexts, k, all, kept);
      assert all + Paths(d, []) == all && kept + Paths(d, []) == kept;
      var rest := Compiled(contexts[k + 1..]);
      if c.rules == [] {
        DroppedFrom(d, contexts, k + 1, all + Paths(d, nodes), kept);
        NoRulesNoVerdicts(d, nodes, all);
        assert [] + rest == rest;
      } else {
        DroppedFrom(d, contexts, k + 1, all + Paths(d, nodes), kept + Paths(d, nodes));
        forall n | n in nodes ensures d.path(n) in all <==> d.path(n) in kept {
          SameClaims(d, contexts, k, all, kept, d.path(n));
        }
        ClaimAgree(d, c.rules, nodes, all, kept);
        assert ([c] + rest)[1..] == rest;
      }
    }
  }

  // ---------- The document that tells a harmful empty rule apart ----------

  /** One node, selected by two context spellings only; every test answers `answer`. */
  function Witness(e1: string, e2: string, answer: bool): Document {
    Document(
      e => Ok(if e == e1 || e == e2 then Some([0]) else None),
      _ => "/", s => s, (_, _) => Ok(answer), (_, _) => Ok(None), (_, _) => false, _ => false,
      Shapes.Unicode(_ => false, _ => false, _ => false, _ => false))
  }

  lemma {:induction false} ClaimedNodeIsSilent(e1: string, e2: string, answer: bool, contexts: seq<RuleContext>)
    ensures ContextVerdicts(Witness(e1, e2, answer), contexts, {"/"}) == []
  {
    var d := Witness(e1, e2, answer);
    if contexts != [] {
      ClaimedNodeIsSilent(e1, e2, answer, contexts[1..]);
      assert {"/"} + Paths(d, [0]) == {"/"};
      assert ClaimVerdicts(d, contexts[0].rules, [0], {"/"}) == [];
    }
  }

  /** In the source reading the empty rule j takes the node and nothing is reported. */
  lemma {:induction false} SourceIsSilent(e1: string, e2: string, answer: bool, contexts: seq<RuleContext>, j: nat)
    requires j < |contexts| && contexts[j].rules == [] && contexts[j].expr == e1
    requires forall i :: 0 <= i < j && contexts[i].rules != [] ==> contexts[i].expr != e1 && contexts[i].expr != e2
    ensures ContextVerdicts(Witness(e1, e2, answer), contexts, {}) == []
  {
    var d := Witness(e1, e2, answer);
    assert 0 in [0] && d.path(0) == "/";
    assert {} + Paths(d, [0]) == {"/"};
    if contexts[0].expr == e1 || contexts[0].expr == e2 {
      assert contexts[0].rules == [];
      ClaimedNodeIsSilent(e1, e2, answer, contexts[1..]);
      NoRulesNoVerdicts(d, [0], {});
    } else {
      SourceIsSilent(e1, e2, answer, contexts[1..], j - 1);
    }
  }

  /** In the compiled reading the first non-empty rule that matches reports the node. */
  lemma {:induction false} CompiledReports(e1: string, e2: string, contexts: seq<RuleContext>, k: nat)
    requires k < |contexts| && contexts[k].rules != [] && (contexts[k].expr == e1 || contexts[k].expr == e2)
    requires forall i :: 0 <= i < k && contexts[i].rules != [] ==> contexts[i].expr != e1 && contexts[i].expr != e2
    ensures var v := ContextVerdicts(Witness(e1, e2, contexts[k].rules[0].isReport), Compiled(contexts), {});
            v != [] && v[0].Found?
  {
    var d := Witness(e1, e2, contexts[k].rules[0].isReport);
    var rest := Compiled(contexts[1..]);
    if k == 0 {
      assert ([contexts[0]] + rest)[0] == contexts[0];
      RuleFires(d, contexts[0].rules);
    } else {
      CompiledReports(e1, e2, contexts[1..], k - 1);
      assert [] + rest == rest;
      assert ([contexts[0]] + rest)[1..] == rest;
    }
  }

  lemma RuleFires(d: Document, rules: seq<CompiledRule>)
    requires rules != [] && d.holds(0, rules[0].test) == Ok(rules[0].isReport)
    requires rules[0].valueXpath.Some? ==> d.stringAt(0, rules[0].valueXpath.value) == Ok(None)
    requires forall s :: !d.dirty(s)
    ensures ClaimVerdicts(d, rules, [0], {}) != [] && ClaimVerdicts(d, rules, [0], {})[0].Found?
  {
    assert RuleVerdicts(d, rules, 0)[0] == VerdictOf(d, rules[0], 0);
  }

  lemma HarmfulRuleShows(contexts: seq<RuleContext>, j: nat, k: nat) returns (d: Document)
    requires j < k < |contexts| && contexts[j].rules == [] && contexts[k].rules != []
    requires forall i :: 0 <= i < k ==> !Shadows(contexts, i, k)
    requires forall i :: 0 <= i < j ==> !Shadows(contexts, i, j)
    ensures Evaluable(d, contexts) && Findings(d, contexts) != Findings(d, Compiled(contexts))
  {
    var e1, e2 := contexts[j].expr, contexts[k].expr;
    assert forall i :: 0 <= i < j && contexts[i].rules != [] ==> !Shadows(contexts, i, j) && !Shadows(contexts, i, k);
    var m := j + 1;
    while contexts[m].rules == [] || (contexts[m].expr != e1 && contexts[m].expr != e2)
      invariant j < m <= k
      invariant forall i :: 0 <= i < m && contexts[i].rules != [] ==> contexts[i].expr != e1 && contexts[i].expr != e2
      decreases k - m
    {
      m := m + 1;
    }
    d := Witness(e1, e2, contexts[m].rules[0].isReport);
    SourceIsSilent(e1, e2, contexts[m].rules[0].isReport, contexts, j);
    CompiledReports(e1, e2, contexts, m);
  }

  /**
   * Dropping rules without assertions keeps every document's findings exactly when each such rule is
   * harmless; a pattern whose rules all have an assertion is.
   */
  lemma DroppingEmptyRulesIsExact(contexts: seq<RuleContext>)
    ensures (forall d :: Evaluable(d, contexts) ==> Findings(d, contexts) == Findings(d, Compiled(contexts)))
            <==> EmptyRulesHarmless(contexts)
  {
    if EmptyRulesHarmless(contexts) {
      forall d | Evaluable(d, contexts) ensures Findings(d, contexts) == Findings(d, Compiled(contexts)) {
        assert contexts[0..] == contexts;
        DroppedFrom(d, contexts, 0, {}, {});
      }
    } else {
      var j, k :| 0 <= j < k < |contexts| && contexts[j].rules == [] && contexts[k].rules != []
                  && !exists i :: 0 <= i < k && (Shadows(contexts, i, k) || (i < j && Shadows(contexts, i, j)));
      var d := HarmfulRuleShows(contexts, j, k);
    }
  }
}
