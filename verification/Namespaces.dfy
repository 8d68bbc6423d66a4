/**
 * How the UBL parser tells elements apart (apps/validator/src/validator/parsers/ubl.py, lines 31-36 and 135-189):
 * by namespace and local name, as Namespaces in XML 1.0, section 6, scopes prefixes.
 */
module Namespaces {
  import opened Base
  import opened UblNames
  import opened UblTree
  import opened XmlText

  // ---------- Names and scopes ----------

  /** The namespaces in scope by prefix; the default one has the empty prefix. */
  type Scope = map<string, string>

  /** The prefix that is always bound. */
  const START_SCOPE: Scope := map["xml" := "http://www.w3.org/XML/1998/namespace"]

  datatype ExpandedName = ExpandedName(uri: string, local: string)

  function FirstColon(s: string): (k: nat)
    ensures k <= |s| && ':' !in s[..k] && (k < |s| ==> s[k] == ':')
  {
    if s == "" || s[0] == ':' then 0 else 1 + FirstColon(s[1..])
  }

  function PrefixOf(name: string): string {
    if FirstColon(name) == |name| then "" else name[..FirstColon(name)]
  }

  function LocalOf(name: string): string {
    if FirstColon(name) == |name| then name else name[FirstColon(name) + 1..]
  }

  predicate Declares(name: string) {
    name == "xmlns" || "xmlns:" <= name
  }

  /** The scope inside an element with these attributes. */
  function Declared(attrs: seq<Attr>, scope: Scope): Scope {
    if attrs == [] then scope else Declared(attrs[1..], Declaring(attrs[0], scope))
  }

  function Declaring(a: Attr, scope: Scope): Scope {
    if a.name == "xmlns" then scope["" := a.value] else if Declares(a.name) then scope[a.name[6..] := a.value] else scope
  }

  predicate InScope(name: string, scope: Scope) {
    PrefixOf(name) == "" || PrefixOf(name) in scope
  }

  /** A prefix that is not declared is an error. */
  predicate NamesInScope(x: Xml, scope: Scope) {
    && InScope(x.name, scope)
    && forall i :: 0 <= i < |x.attrs| ==> Declares(x.attrs[i].name) || InScope(x.attrs[i].name, scope)
  }

  function Expand(name: string, scope: Scope): ExpandedName {
    ExpandedName(if PrefixOf(name) in scope then scope[PrefixOf(name)] else "", LocalOf(name))
  }

  /** `{uri}local`, the spelling of names outside the two namespaces. */
  function Spelled(e: ExpandedName): string {
    if e.uri == "" then e.local else "{" + e.uri + "}" + e.local
  }

  // ---------- Resolving a tree ----------

  /** The tag of a name below the document element. */
  function TagIn(name: string, scope: Scope): Tag {
    var e := Expand(name, scope);
    if e.uri == CBC_NS then TagOf("cbc:" + e.local)
    else if e.uri == CAC_NS then TagOf("cac:" + e.local)
    else Other(Spelled(e))
  }

  /** The attributes without the declarations; one without a prefix is in no namespace. */
  function AttrsIn(attrs: seq<Attr>, scope: Scope): seq<Attr> {
    if attrs == [] then []
    else (if Declares(attrs[0].name) then [] else [AttrIn(attrs[0], scope)]) + AttrsIn(attrs[1..], scope)
  }

  function AttrIn(a: Attr, scope: Scope): Attr {
    Attr(if PrefixOf(a.name) == "" then a.name else Spelled(Expand(a.name, scope)), a.value)
  }

  function Resolve(x: Xml, outer: Scope): Option<Node>
    decreases x, 1
  {
    var scope := Declared(x.attrs, outer);
    var kids := ResolveAll(x.kids, scope);
    if !NamesInScope(x, scope) || kids.None? then None
    else Some(Node(TagIn(x.name, scope), AttrsIn(x.attrs, scope), x.text, kids.value))
  }

  function ResolveAll(kids: seq<Xml>, scope: Scope): Option<seq<Node>>
    decreases kids, 0
  {
    if kids == [] then Some([])
    else
      var first, rest := Resolve(kids[0], scope), ResolveAll(kids[1..], scope);
      if first.None? || rest.None? then None else Some([first.value] + rest.value)
  }

  function RootTagOf(local: string): Tag {
    if local == "Invoice" then InvoiceRoot else if local == "CreditNote" then CreditNoteRoot else Other(local)
  }

  /** The tree with its names resolved; of the document element only the local name counts. */
  function Resolved(x: Xml): (r: Option<Node>)
    ensures r.Some? ==> r.value.tag.InvoiceRoot? || r.value.tag.CreditNoteRoot? || r.value.tag.Other?
  {
    var root := Resolve(x, START_SCOPE);
    if root.None? then None else Some(root.value.(tag := RootTagOf(LocalOf(x.name))))
  }

  // ---------- What a qualified name is ----------

  lemma PlainName(name: string)
    requires ':' !in name
    ensures FirstColon(name) == |name| && PrefixOf(name) == "" && LocalOf(name) == name
  {
  }

  lemma {:induction false} ColonAt(name: string, k: nat)
    requires k < |name| && name[k] == ':' && forall i :: 0 <= i < k ==> name[i] != ':'
    ensures FirstColon(name) == k
    decreases k
  {
    if k > 0 {
      ColonAt(name[1..], k - 1);
    }
  }

  /** A prefix and a local name, with a colon between them. */
  lemma QualifiedName(prefix: string, local: string)
    requires ':' !in prefix
    ensures PrefixOf(prefix + ":" + local) == prefix && LocalOf(prefix + ":" + local) == local
  {
    var name := prefix + ":" + local;
    ColonAt(name, |prefix|);
  }

  /** The attribute that declares a prefix, or the default namespace. */
  function DeclarationOf(prefix: string): string {
    if prefix == "" then "xmlns" else "xmlns:" + prefix
  }

  lemma DeclaringSets(a: Attr, scope: Scope, prefix: string)
    requires ':' !in prefix && a.name != "xmlns:"
    ensures var inner := Declaring(a, scope);
            if a.name == DeclarationOf(prefix) then prefix in inner && inner[prefix] == a.value
            else (prefix in inner <==> prefix in scope) && (prefix in scope ==> inner[prefix] == scope[prefix])
  {
    assert ("xmlns:" + prefix)[6..] == prefix;
    if "xmlns:" <= a.name {
      assert a.name == "xmlns:" + a.name[6..];
    }
  }

  /** The last declaration of a prefix counts, and where there is none the enclosing scope does. */
  lemma {:induction false} LastDeclarationCounts(attrs: seq<Attr>, scope: Scope, prefix: string)
    requires ':' !in prefix && forall a :: a in attrs ==> a.name != "xmlns:"
    ensures var inner := Declared(attrs, scope);
            && (prefix in inner <==> prefix in scope || exists a :: a in attrs && a.name == DeclarationOf(prefix))
            && (forall k :: 0 <= k < |attrs| && attrs[k].name == DeclarationOf(prefix)
                            && (forall l :: k < l < |attrs| ==> attrs[l].name != DeclarationOf(prefix))
                            ==> inner[prefix] == attrs[k].value)
            && ((forall a :: a in attrs ==> a.name != DeclarationOf(prefix)) && prefix in scope ==> inner[prefix] == scope[prefix])
  {
    if attrs != [] {
      hide Declaring, DeclarationOf;
      DeclaringSets(attrs[0], scope, prefix);
      LastDeclarationCounts(attrs[1..], Declaring(attrs[0], scope), prefix);
      assert forall a :: a in attrs <==> a == attrs[0] || a in attrs[1..];
      assert forall k :: 0 < k < |attrs| ==> attrs[k] == attrs[1..][k - 1];
    }
  }

  // ---------- Prefixes do not matter ----------

  /** Two names with one namespace and one local name have one tag, whatever their prefixes. */
  lemma NamespaceDecides(name: string, scope: Scope, name': string, scope': Scope)
    requires Expand(name, scope) == Expand(name', scope')
    ensures TagIn(name, scope) == TagIn(name', scope')
  {
    hide TagOf, PrefixOf, LocalOf, Spelled;
  }

  /** A local name, as it stands under a prefix or under the default namespace. */
  function Under(prefix: string, local: string): string {
    if prefix == "" then local else prefix + ":" + local
  }

  lemma UnderExpands(prefix: string, local: string, scope: Scope)
    requires ':' !in prefix && ':' !in local && prefix in scope
    ensures Expand(Under(prefix, local), scope) == ExpandedName(scope[prefix], local)
  {
    if prefix == "" {
      PlainName(local);
    } else {
      QualifiedName(prefix, local);
    }
  }

  /** The tag of an element with any prefix, or none, bound to one of the two namespaces. */
  lemma TagByNamespace(prefix: string, local: string, scope: Scope)
    requires ':' !in prefix && ':' !in local && prefix in scope
    ensures scope[prefix] == CBC_NS ==> TagIn(Under(prefix, local), scope) == TagOf("cbc:" + local)
    ensures scope[prefix] == CAC_NS ==> TagIn(Under(prefix, local), scope) == TagOf("cac:" + local)
    ensures scope[prefix] != CBC_NS && scope[prefix] != CAC_NS ==> TagIn(Under(prefix, local), scope).Other?
  {
    hide TagOf, Expand, Under;
    UrisDiffer();
    UnderExpands(prefix, local, scope);
  }

  lemma UrisDiffer()
    ensures CBC_NS != CAC_NS && CBC_NS != ""
  {
    assert |"CommonBasicComponents-2"| != |"CommonAggregateComponents-2"|;
  }

  /** An attribute without a prefix keeps its name; one of a namespace is never taken for it. */
  lemma AttributeByNamespace(a: Attr, scope: Scope)
    ensures PrefixOf(a.name) == "" ==> AttrIn(a, scope) == a
    ensures PrefixOf(a.name) in scope && PrefixOf(a.name) != "" && scope[PrefixOf(a.name)] != "" ==>
              && AttrIn(a, scope).value == a.value
              && AttrIn(a, scope).name == "{" + scope[PrefixOf(a.name)] + "}" + LocalOf(a.name)
              && forall plain: string :: (plain != "" ==> plain[0] != '{') ==> AttrIn(a, scope).name != plain
  {
    hide PrefixOf, LocalOf;
  }

  /** The same element but for prefixes: equal expanded names, texts and attributes, and below it the same. */
  ghost predicate SameButPrefixes(x: Xml, outer: Scope, y: Xml, outer': Scope)
    decreases x, 1
  {
    var scope, scope' := Declared(x.attrs, outer), Declared(y.attrs, outer');
    && Expand(x.name, scope) == Expand(y.name, scope')
    && SameInside(x, scope, y, scope')
  }

  ghost predicate SameInside(x: Xml, scope: Scope, y: Xml, scope': Scope)
    decreases x, 0
  {
    && NamesInScope(x, scope) && NamesInScope(y, scope')
    && x.text == y.text && AttrsIn(x.attrs, scope) == AttrsIn(y.attrs, scope')
    && |x.kids| == |y.kids|
    && forall i :: 0 <= i < |x.kids| ==> SameButPrefixes(x.kids[i], scope, y.kids[i], scope')
  }

  lemma {:induction false} SameResolves(x: Xml, outer: Scope, y: Xml, outer': Scope)
    requires SameButPrefixes(x, outer, y, outer')
    ensures Resolve(x, outer).Some? && Resolve(x, outer) == Resolve(y, outer')
    decreases x, 1
  {
    var scope, scope' := Declared(x.attrs, outer), Declared(y.attrs, outer');
    hide Expand, TagIn, NamesInScope, AttrsIn, Declared;
    forall i | 0 <= i < |x.kids| ensures SameButPrefixes(x.kids[i], scope, y.kids[i], scope') {
    }
    AllSameResolve(x.kids, scope, y.kids, scope');
    NamespaceDecides(x.name, scope, y.name, scope');
    hide ResolveAll;
  }

  lemma {:induction false} AllSameResolve(kids: seq<Xml>, scope: Scope, kids': seq<Xml>, scope': Scope)
    requires |kids| == |kids'| && forall i :: 0 <= i < |kids| ==> SameButPrefixes(kids[i], scope, kids'[i], scope')
    ensures ResolveAll(kids, scope).Some? && ResolveAll(kids, scope) == ResolveAll(kids', scope')
    decreases kids, 0
  {
    if kids != [] {
      hide SameButPrefixes, Resolve;
      SameResolves(kids[0], scope, kids'[0], scope');
      forall i | 0 <= i < |kids[1..]| ensures SameButPrefixes(kids[1..][i], scope, kids'[1..][i], scope') {
        assert SameButPrefixes(kids[i + 1], scope, kids'[i + 1], scope');
      }
      AllSameResolve(kids[1..], scope, kids'[1..], scope');
    }
  }

  /** The same document but for prefixes: of the root the local name counts alone. */
  ghost predicate SameDocument(x: Xml, y: Xml) {
    LocalOf(x.name) == LocalOf(y.name) && SameInside(x, Declared(x.attrs, START_SCOPE), y, Declared(y.attrs, START_SCOPE))
  }

  lemma SameDocumentResolves(x: Xml, y: Xml)
    requires SameDocument(x, y)
    ensures Resolved(x).Some? && Resolved(x) == Resolved(y)
  {
    var scope, scope' := Declared(x.attrs, START_SCOPE), Declared(y.attrs, START_SCOPE);
    hide TagIn, NamesInScope, AttrsIn, Declared, SameButPrefixes, LocalOf, RootTagOf;
    AllSameResolve(x.kids, scope, y.kids, scope');
    hide ResolveAll;
  }

  // ---------- Undeclared prefixes ----------

  /** The name has this prefix, and it is not in scope. */
  ghost predicate HasStray(name: string, prefix: string, scope: Scope) {
    prefix != "" && ':' !in prefix && prefix + ":" <= name && prefix !in scope
  }

  ghost predicate Stray(name: string, scope: Scope) {
    exists prefix :: HasStray(name, prefix, scope)
  }

  /** Somewhere in the element, its own name or that of an attribute that is no declaration has a prefix not in scope there. */
  ghost predicate Undeclared(x: Xml, outer: Scope)
    decreases x
  {
    var scope := Declared(x.attrs, outer);
    || Stray(x.name, scope)
    || (exists i :: 0 <= i < |x.attrs| && x.attrs[i].name != "xmlns" && !("xmlns:" <= x.attrs[i].name) && Stray(x.attrs[i].name, scope))
    || exists k :: 0 <= k < |x.kids| && Undeclared(x.kids[k], scope)
  }

  lemma StrayExactly(name: string, scope: Scope)
    ensures Stray(name, scope) <==> !InScope(name, scope)
  {
    var k := FirstColon(name);
    if k < |name| && k > 0 {
      var p := name[..k];
      assert p + ":" == name[..k + 1];
      assert PrefixOf(name) == p;
      assert p !in scope ==> HasStray(name, p, scope);
    }
    forall prefix | HasStray(name, prefix, scope) ensures PrefixOf(name) == prefix {
      var rest := name[|prefix| + 1..];
      assert name == prefix + ":" + rest;
      QualifiedName(prefix, rest);
    }
  }

  lemma NamesInScopeExactly(x: Xml, scope: Scope)
    ensures !NamesInScope(x, scope)
            <==> || Stray(x.name, scope)
                 || exists i :: 0 <= i < |x.attrs| && x.attrs[i].name != "xmlns" && !("xmlns:" <= x.attrs[i].name) && Stray(x.attrs[i].name, scope)
  {
    hide Stray, InScope;
    StrayExactly(x.name, scope);
    forall i | 0 <= i < |x.attrs| ensures Stray(x.attrs[i].name, scope) <==> !InScope(x.attrs[i].name, scope) {
      StrayExactly(x.attrs[i].name, scope);
    }
  }

  /** Resolving fails exactly on a prefix that is not declared. */
  lemma {:induction false} ResolvesExactly(x: Xml, outer: Scope)
    ensures Resolve(x, outer).None? <==> Undeclared(x, outer)
    decreases x, 1
  {
    var scope := Declared(x.attrs, outer);
    hide NamesInScope, Declared, TagIn, AttrsIn, Stray;
    NamesInScopeExactly(x, scope);
    AllResolveExactly(x.kids, scope);
    hide ResolveAll;
  }

  lemma {:induction false} AllResolveExactly(kids: seq<Xml>, scope: Scope)
    ensures ResolveAll(kids, scope).None? <==> exists k :: 0 <= k < |kids| && Undeclared(kids[k], scope)
    decreases kids, 0
  {
    if kids != [] {
      ResolvesExactly(kids[0], scope);
      AllResolveExactly(kids[1..], scope);
      hide Undeclared, Resolve;
      assert forall k :: 0 < k < |kids| ==> kids[k] == kids[1..][k - 1];
      assert forall k :: 0 <= k < |kids[1..]| ==> kids[1..][k] == kids[k + 1];
    }
  }
}
