/**
 * Inlining `sch:let` bindings into an XPath test (apps/validator/src/validator/engine.py, lines 207-216):
 * one textual replacement per binding, in order. Which characters are word characters of a regular expression,
 * and which are name characters of XPath, is a parameter.
 */
module Lets {
  import opened Base

  /** One entry of the `lets` dictionary; its names are distinct because they are keys. */
  datatype Let = Let(name: string, value: string)

  /** `\w` of the pattern, and the characters of a variable name; a name may also hold '-' and '.'. */
  datatype Chars = Chars(word: char -> bool, name: char -> bool)

  ghost predicate Sound(x: Chars) {
    && (forall c :: x.word(c) ==> x.name(c))
    && !x.name('$') && !x.name('(') && !x.name(')') && !x.name('\'') && !x.name('"') && !x.name(':')
  }

  // ---------- The textual replacement ----------

  predicate WordAt(x: Chars, s: string, i: nat) {
    i < |s| && x.word(s[i])
  }

  /** The pattern `\$name\b` matches at the start of the text. */
  predicate MatchesRef(x: Chars, s: string, name: string) {
    ("$" + name) <= s && WordAt(x, s, |name|) != WordAt(x, s, 1 + |name|)
  }

  /** `re.sub` of the pattern: leftmost matches, and replaced text is not scanned again. */
  function Sub(x: Chars, s: string, name: string, value: string): string {
    if s == "" then ""
    else if MatchesRef(x, s, name) then "(" + value + ")" + Sub(x, s[1 + |name|..], name, value)
    else [s[0]] + Sub(x, s[1..], name, value)
  }

  /** `_substitute_lets` from the i-th binding on. */
  function SubFrom(x: Chars, s: string, lets: seq<Let>, i: nat): string
    requires i <= |lets|
    decreases |lets| - i
  {
    if i == |lets| then s else SubFrom(x, Sub(x, s, lets[i].name, lets[i].value), lets, i + 1)
  }

  method SubstituteLets(x: Chars, expr: string, lets: seq<Let>) returns (inlined: string)
    ensures inlined == SubFrom(x, expr, lets, 0)
  {
    inlined := expr;
    for i := 0 to |lets|
      invariant SubFrom(x, inlined, lets, i) == SubFrom(x, expr, lets, 0)
    {
      inlined := Sub(x, inlined, lets[i].name, lets[i].value);
    }
  }

  // ---------- Reading a text as tokens ----------

  /** A string literal or a comment is one token; one that does not end takes the rest of the text. */
  datatype Token = Raw(c: char) | Quoted(text: string) | Unclosed(text: string) | Var(name: string) | Open | Close

  function PrintToken(t: Token): string {
    match t
    case Raw(c) => [c]
    case Quoted(text) => text
    case Unclosed(text) => text
    case Var(name) => "$" + name
    case Open => "("
    case Close => ")"
  }

  function Span(x: Chars, s: string): (k: nat)
    ensures k <= |s| && (forall i :: 0 <= i < k ==> x.name(s[i])) && (k < |s| ==> !x.name(s[k]))
  {
    if s != "" && x.name(s[0]) then 1 + Span(x, s[1..]) else 0
  }

  /** Where the literal ends; a doubled quote reads as two literals side by side. */
  function QuoteEnd(q: char, s: string): (k: Option<nat>)
    ensures k.Some? ==> 0 < k.value <= |s| && s[k.value - 1] == q
  {
    if s == "" then None
    else if s[0] == q then Some(1)
    else Further(1, QuoteEnd(q, s[1..]))
  }

  predicate Begins(s: string, a: char, b: char) {
    |s| >= 2 && s[0] == a && s[1] == b
  }

  /** Where the comment ends; comments nest. */
  function CommentEnd(s: string, depth: nat): (k: Option<nat>)
    ensures k.Some? ==> 2 <= k.value <= |s| && s[k.value - 1] == ')'
  {
    if |s| < 2 then None
    else if Begins(s, ':', ')') then if depth == 0 then Some(2) else Further(2, CommentEnd(s[2..], depth - 1))
    else if Begins(s, '(', ':') then Further(2, CommentEnd(s[2..], depth + 1))
    else Further(1, CommentEnd(s[1..], depth))
  }

  function Further(n: nat, k: Option<nat>): Option<nat> {
    if k.None? then None else Some(n + k.value)
  }

  function Delimited(s: string, from: nat, end: Option<nat>): Token
    requires end.Some? ==> from + end.value <= |s|
  {
    if end.None? then Unclosed(s) else Quoted(s[..from + end.value])
  }

  function First(x: Chars, s: string): (t: Token)
    requires s != ""
    ensures PrintToken(t) != "" && PrintToken(t) <= s
  {
    if s[0] == '$' then
      var k := Span(x, s[1..]);
      if k == 0 then Raw('$') else Var(s[1..][..k])
    else if s[0] == '(' then
      if |s| > 1 && s[1] == ':' then Delimited(s, 2, CommentEnd(s[2..], 0)) else Open
    else if s[0] == ')' then Close
    else if s[0] == '\'' || s[0] == '"' then Delimited(s, 1, QuoteEnd(s[0], s[1..]))
    else Raw(s[0])
  }

  function Lex(x: Chars, s: string): seq<Token> {
    if s == "" then [] else [First(x, s)] + Lex(x, s[|PrintToken(First(x, s))|..])
  }

  function Print(ts: seq<Token>): string {
    if ts == [] then "" else PrintToken(ts[0]) + Print(ts[1..])
  }

  // ---------- Tokens read back ----------

  /** What may stand right after a token for it to be read as that token. */
  predicate Follows(x: Chars, t: Token, rest: string) {
    && (t.Var? || t == Raw('$') ==> rest == "" || !x.name(rest[0]))
    && (t.Open? ==> rest == "" || rest[0] != ':')
    && (t.Unclosed? ==> rest == "")
  }

  /** The token alone is read as itself. */
  predicate Whole(x: Chars, t: Token) {
    PrintToken(t) != "" && First(x, PrintToken(t)) == t
  }

  predicate Chain(x: Chars, ts: seq<Token>) {
    ts == [] || (Whole(x, ts[0]) && Follows(x, ts[0], Print(ts[1..])) && Chain(x, ts[1..]))
  }

  lemma {:induction false} SpanOf(x: Chars, name: string, rest: string)
    requires (forall i :: 0 <= i < |name| ==> x.name(name[i])) && (rest == "" || !x.name(rest[0]))
    ensures Span(x, name + rest) == |name|
  {
    if name == "" {
      assert name + rest == rest;
    } else {
      assert (name + rest)[1..] == name[1..] + rest;
      SpanOf(x, name[1..], rest);
    }
  }

  /** A text cut short and continued: its tail is cut short and continued alike. */
  lemma CutTail(s: string, k: nat, n: nat, rest: string)
    requires n <= k <= |s|
    ensures (s[..k] + rest)[n..] == s[n..][..k - n] + rest
    ensures forall i :: 0 <= i < k ==> (s[..k] + rest)[i] == s[i]
  {
  }

  lemma {:induction false} QuoteEndOf(q: char, s: string, rest: string)
    requires QuoteEnd(q, s).Some?
    ensures QuoteEnd(q, s[..QuoteEnd(q, s).value] + rest) == QuoteEnd(q, s)
  {
    var k := QuoteEnd(q, s).value;
    CutTail(s, k, 1, rest);
    if s[0] != q {
      QuoteEndOf(q, s[1..], rest);
    }
  }

  lemma CommentStep(s: string, depth: nat)
    requires |s| >= 2
    ensures CommentEnd(s, depth)
         == if s[0] == ':' && s[1] == ')' then if depth == 0 then Some(2) else Further(2, CommentEnd(s[2..], depth - 1))
            else if s[0] == '(' && s[1] == ':' then Further(2, CommentEnd(s[2..], depth + 1))
            else Further(1, CommentEnd(s[1..], depth))
  {
  }

  lemma CommentIsLong(s: string, depth: nat)
    requires CommentEnd(s, depth).Some?
    ensures |s| >= 2 && CommentEnd(s, depth).value <= |s|
  {
  }

  lemma {:induction false} CommentEndOf(s: string, depth: nat, k: nat, rest: string)
    requires CommentEnd(s, depth) == Some(k)
    ensures k <= |s| && CommentEnd(s[..k] + rest, depth) == Some(k)
    decreases |s|
  {
    CommentIsLong(s, depth);
    var t := s[..k] + rest;
    CommentStep(s, depth);
    CommentStep(t, depth);
    hide CommentEnd;
    CutTail(s, k, 1, rest);
    CutTail(s, k, 2, rest);
    if s[0] == ':' && s[1] == ')' {
      if depth > 0 {
        CommentEndOf(s[2..], depth - 1, k - 2, rest);
      }
    } else if s[0] == '(' && s[1] == ':' {
      CommentEndOf(s[2..], depth + 1, k - 2, rest);
    } else {
      CommentEndOf(s[1..], depth, k - 1, rest);
    }
  }

  /** A literal or comment is read the same whatever stands after it. */
  lemma QuotedAgain(x: Chars, s: string, rest: string)
    requires s != "" && First(x, s).Quoted?
    ensures First(x, First(x, s).text + rest) == First(x, s)
  {
    if s[0] == '(' {
      CommentAgain(x, s, rest);
    } else {
      LiteralAgain(x, s, rest);
    }
  }

  lemma CommentAgain(x: Chars, s: string, rest: string)
    requires Begins(s, '(', ':') && CommentEnd(s[2..], 0).Some?
    ensures var text := s[..2 + CommentEnd(s[2..], 0).value]; First(x, text + rest) == Quoted(text)
  {
    var k := CommentEnd(s[2..], 0).value;
    CommentEndOf(s[2..], 0, k, rest);
    hide CommentEnd;
    CutTail(s, 2 + k, 2, rest);
    assert (s[..2 + k] + rest)[..2 + k] == s[..2 + k];
  }

  lemma LiteralAgain(x: Chars, s: string, rest: string)
    requires s != "" && (s[0] == '\'' || s[0] == '"') && QuoteEnd(s[0], s[1..]).Some?
    ensures var text := s[..1 + QuoteEnd(s[0], s[1..]).value]; First(x, text + rest) == Quoted(text)
  {
    var k := QuoteEnd(s[0], s[1..]).value;
    QuoteEndOf(s[0], s[1..], rest);
    hide QuoteEnd;
    CutTail(s, 1 + k, 1, rest);
    assert (s[..1 + k] + rest)[..1 + k] == s[..1 + k];
  }

  lemma VarAgain(x: Chars, name: string, rest: string)
    requires name != "" && (forall i :: 0 <= i < |name| ==> x.name(name[i])) && (rest == "" || !x.name(rest[0]))
    ensures First(x, "$" + name + rest) == Var(name)
  {
    var s := "$" + name + rest;
    SpanOf(x, name, rest);
    assert s[1..] == name + rest && (name + rest)[..|name|] == name;
  }

  lemma FirstIsWhole(x: Chars, s: string)
    requires s != ""
    ensures Whole(x, First(x, s)) && Follows(x, First(x, s), s[|PrintToken(First(x, s))|..])
  {
    var t := First(x, s);
    if t.Quoted? {
      QuotedAgain(x, s, "");
      assert t.text + "" == t.text;
    } else if t.Var? {
      VarAgain(x, t.name, "");
      assert "$" + t.name + "" == "$" + t.name;
    }
  }

  lemma WholeAgain(x: Chars, t: Token, rest: string)
    requires Whole(x, t) && Follows(x, t, rest)
    ensures First(x, PrintToken(t) + rest) == t
  {
    var s := PrintToken(t) + rest;
    match t
    case Quoted(text) => QuotedAgain(x, text, rest);
    case Unclosed(text) => assert s == text;
    case Var(name) => VarName(x, name); VarAgain(x, name, rest);
    case _ => assert s[0] == PrintToken(t)[0] && s[1..] == rest;
  }

  lemma VarName(x: Chars, name: string)
    requires Whole(x, Var(name))
    ensures name != "" && forall i :: 0 <= i < |name| ==> x.name(name[i])
  {
    assert ("$" + name)[1..] == name;
  }

  /** Reading loses nothing, and what is read is what would be read again. */
  lemma {:induction false} LexReads(x: Chars, s: string)
    ensures Chain(x, Lex(x, s)) && Print(Lex(x, s)) == s
  {
    if s != "" {
      FirstIsWhole(x, s);
      var t := First(x, s);
      var rest := s[|PrintToken(t)|..];
      LexReads(x, rest);
      hide First, Whole, Follows;
      assert ([t] + Lex(x, rest))[1..] == Lex(x, rest);
    }
  }

  lemma {:induction false} LexPrint(x: Chars, ts: seq<Token>)
    requires Chain(x, ts)
    ensures Lex(x, Print(ts)) == ts
  {
    if ts != [] {
      WholeAgain(x, ts[0], Print(ts[1..]));
      LexPrint(x, ts[1..]);
      hide First, Follows;
      assert Print(ts)[|PrintToken(ts[0])|..] == Print(ts[1..]);
    }
  }

  // ---------- One replacement ----------

  function Last(s: string): char
    requires s != ""
  {
    s[|s| - 1]
  }

  /** The name goes on past another one in the middle of it, at a place the pattern takes for its end. */
  predicate Torn(x: Chars, name: string, other: string) {
    other != "" && other < name && x.word(Last(other)) != x.word(name[|other|])
  }

  ghost predicate Hit(x: Chars, text: string, name: string) {
    exists i :: 0 <= i < |text| && MatchesRef(x, text[i..], name)
  }

  /** Replacing the name leaves the token alone, unless it is a reference to that very name. */
  ghost predicate Fits(x: Chars, t: Token, name: string) {
    match t
    case Var(m) => !Torn(x, m, name)
    case Quoted(text) => !Hit(x, text, name)
    case Unclosed(text) => !Hit(x, text, name)
    case _ => true
  }

  predicate IsName(x: Chars, name: string) {
    name != "" && forall i :: 0 <= i < |name| ==> x.name(name[i])
  }

  function Replace(ts: seq<Token>, name: string, block: seq<Token>): seq<Token> {
    if ts == [] then []
    else (if ts[0] == Var(name) then block else [ts[0]]) + Replace(ts[1..], name, block)
  }

  function Block(value: seq<Token>): seq<Token> {
    [Open] + value + [Close]
  }

  /** Where the pattern matches a reference: at its own name, if that ends in a word character, and where it tears another. */
  lemma VarMatchesExactly(x: Chars, m: string, rest: string, name: string)
    requires Sound(x) && IsName(x, m) && IsName(x, name) && (rest == "" || !x.name(rest[0]))
    ensures MatchesRef(x, "$" + m + rest, name) <==> (m == name && x.word(Last(name))) || Torn(x, m, name)
  {
    var s := "$" + m + rest;
    assert s[1..] == m + rest;
    assert ("$" + name) <= s <==> name <= m + rest by {
      assert forall i :: 0 <= i < |name| ==> ("$" + name)[1 + i] == name[i];
      assert |name| < |s| ==> forall i :: 0 <= i < |name| ==> s[1 + i] == (m + rest)[i];
    }
    PrefixWithin(x, m, rest, name);
  }

  lemma PrefixIs(p: string, s: string)
    ensures p <= s <==> |p| <= |s| && forall i :: 0 <= i < |p| ==> p[i] == s[i]
  {
  }

  /** A name that starts a text starts the name at its start. */
  lemma PrefixWithin(x: Chars, m: string, rest: string, name: string)
    requires IsName(x, name) && (rest == "" || !x.name(rest[0]))
    ensures name <= m + rest <==> name <= m
  {
    PrefixIs(name, m + rest);
    if rest != "" {
      assert (m + rest)[|m|] == rest[0];
    }
    assert name <= m ==> name <= m + rest;
  }

  lemma {:induction false} SubKeepsPlain(x: Chars, a: string, rest: string, name: string, value: string)
    requires forall i :: 0 <= i < |a| ==> a[i] != '$'
    ensures Sub(x, a + rest, name, value) == a + Sub(x, rest, name, value)
  {
    if a == "" {
      assert a + rest == rest;
    } else {
      assert (a + rest)[1..] == a[1..] + rest;
      SubKeepsPlain(x, a[1..], rest, name, value);
    }
  }

  /** The last character can be part of no match, so what stands after it makes no difference. */
  predicate Sealed(x: Chars, a: string) {
    a != "" && !x.name(Last(a)) && Last(a) != '$'
  }

  lemma MatchWithin(x: Chars, a: string, rest: string, name: string)
    requires Sealed(x, a) && IsName(x, name)
    ensures MatchesRef(x, a + rest, name) <==> MatchesRef(x, a, name)
  {
    var s, ref := a + rest, "$" + name;
    assert forall i :: 1 <= i <= |name| ==> ref[i] == name[i - 1];
    assert s[|a| - 1] == Last(a);
    PrefixIs(ref, s);
    assert ref <= s && |ref| < |a| ==> ref == s[..|ref|] == a[..|ref|];
    assert ref <= a ==> ref <= s;
  }

  /** A literal or comment comes out as it is, exactly when nothing in it matches. */
  lemma {:induction false} SubSealed(x: Chars, a: string, rest: string, name: string, value: string)
    requires Sealed(x, a) && IsName(x, name)
    ensures !Hit(x, a, name) ==> Sub(x, a + rest, name, value) == a + Sub(x, rest, name, value)
    ensures Hit(x, a, name) ==> !(a <= Sub(x, a + rest, name, value))
  {
    hide Hit, Sub, MatchesRef;
    var s := a + rest;
    MatchWithin(x, a, rest, name);
    HitSplit(x, a, name);
    assert s[0] == a[0] && s[1..] == a[1..] + rest;
    if MatchesRef(x, a, name) {
      MatchStarts(x, a, name);
      SubMatch(x, s, name, value);
    } else {
      SubSkip(x, s, name, value);
      var r := Sub(x, a[1..] + rest, name, value);
      assert a == [a[0]] + a[1..];
      PrefixCons(a[0], a[1..], r);
      if |a| == 1 {
        NothingHit(x, a[1..], name);
        assert a[1..] + rest == rest;
      } else {
        SubSealed(x, a[1..], rest, name, value);
        Assoc([a[0]], a[1..], Sub(x, rest, name, value));
      }
    }
  }

  lemma MatchStarts(x: Chars, a: string, name: string)
    requires MatchesRef(x, a, name)
    ensures a != "" && a[0] == '$'
  {
  }

  lemma NothingHit(x: Chars, a: string, name: string)
    requires a == ""
    ensures !Hit(x, a, name)
  {
  }

  lemma PrefixCons(c: char, a: string, b: string)
    ensures [c] + a <= [c] + b <==> a <= b
  {
    if [c] + a <= [c] + b {
      assert a == ([c] + a)[1..] && b == ([c] + b)[1..];
      assert ([c] + b)[..|a| + 1] == [c] + a;
    }
  }

  lemma HitSplit(x: Chars, a: string, name: string)
    requires a != ""
    ensures Hit(x, a, name) <==> MatchesRef(x, a, name) || Hit(x, a[1..], name)
  {
    hide MatchesRef;
    assert a[0..] == a;
    if Hit(x, a, name) && !MatchesRef(x, a, name) {
      var i :| 0 <= i < |a| && MatchesRef(x, a[i..], name);
      TailOfTail(a, i - 1);
      assert MatchesRef(x, a[1..][i - 1..], name);
    }
    if Hit(x, a[1..], name) {
      var i :| 0 <= i < |a[1..]| && MatchesRef(x, a[1..][i..], name);
      TailOfTail(a, i);
      assert MatchesRef(x, a[i + 1..], name);
    }
  }

  lemma TailOfTail(a: string, i: nat)
    requires i + 1 <= |a|
    ensures a[1..][i..] == a[i + 1..]
  {
  }

  /** The text of the rest, one token on. */
  lemma SubAtVar(x: Chars, m: string, rest: string, name: string, value: string)
    requires Sound(x) && IsName(x, m) && IsName(x, name) && x.word(Last(name)) && (rest == "" || !x.name(rest[0]))
    ensures m == name ==> Sub(x, "$" + m + rest, name, value) == "(" + value + ")" + Sub(x, rest, name, value)
    ensures m != name && !Torn(x, m, name) ==> Sub(x, "$" + m + rest, name, value) == "$" + m + Sub(x, rest, name, value)
    ensures Torn(x, m, name) ==> !(("$" + m) <= Sub(x, "$" + m + rest, name, value))
  {
    hide Torn, Sub, MatchesRef;
    var s := "$" + m + rest;
    VarMatchesExactly(x, m, rest, name);
    TornDiffers(x, m, name);
    if MatchesRef(x, s, name) {
      SubMatch(x, s, name, value);
      assert ("$" + m)[0] == '$';
      assert s[1 + |m|..] == rest;
    } else {
      SubSkip(x, s, name, value);
      MHasNoDollar(x, m);
      SubKeepsPlain(x, m, rest, name, value);
      assert s[1..] == m + rest;
      Assoc("$", m, Sub(x, rest, name, value));
    }
  }

  lemma MHasNoDollar(x: Chars, m: string)
    requires Sound(x) && IsName(x, m)
    ensures forall i :: 0 <= i < |m| ==> m[i] != '$'
  {
  }

  lemma TornDiffers(x: Chars, m: string, name: string)
    ensures Torn(x, m, name) ==> m != name
  {
  }

  lemma SubMatch(x: Chars, s: string, name: string, value: string)
    requires s != "" && MatchesRef(x, s, name)
    ensures Sub(x, s, name, value) == "(" + value + ")" + Sub(x, s[1 + |name|..], name, value)
    ensures Sub(x, s, name, value)[0] == '('
  {
  }

  lemma SubSkip(x: Chars, s: string, name: string, value: string)
    requires s != "" && !MatchesRef(x, s, name)
    ensures Sub(x, s, name, value) == [s[0]] + Sub(x, s[1..], name, value)
  {
  }

  lemma SubAtDollar(x: Chars, rest: string, name: string, value: string)
    requires IsName(x, name) && (rest == "" || !x.name(rest[0]))
    ensures Sub(x, "$" + rest, name, value) == "$" + Sub(x, rest, name, value)
  {
    var s, ref := "$" + rest, "$" + name;
    assert ref[1] == name[0] && s[1..] == rest;
    PrefixIs(ref, s);
    if rest != "" {
      assert s[1] == rest[0];
    }
  }

  lemma WholeIsSealed(x: Chars, t: Token)
    requires Sound(x) && Whole(x, t) && t.Quoted?
    ensures Sealed(x, t.text)
  {
  }

  /** One token on: it comes out as it is, or replaced, exactly when it fits. */
  lemma SubAtToken(x: Chars, t: Token, rest: string, name: string, value: string)
    requires Sound(x) && Whole(x, t) && Follows(x, t, rest) && IsName(x, name) && x.word(Last(name))
    ensures Fits(x, t, name) ==>
              Sub(x, PrintToken(t) + rest, name, value)
              == (if t == Var(name) then "(" + value + ")" else PrintToken(t)) + Sub(x, rest, name, value)
    ensures !Fits(x, t, name) ==> t != Var(name) && !(PrintToken(t) <= Sub(x, PrintToken(t) + rest, name, value))
  {
    match t
    case Var(m) =>
      VarName(x, m);
      SubAtVar(x, m, rest, name, value);
    case Quoted(text) =>
      WholeIsSealed(x, t);
      SubSealed(x, text, rest, name, value);
    case Unclosed(text) =>
      SubToTheEnd(x, text, name, value);
      assert text + rest == text && text + Sub(x, rest, name, value) == text;
    case Raw(c) =>
      if c == '$' {
        SubAtDollar(x, rest, name, value);
      } else {
        SubKeepsPlain(x, [c], rest, name, value);
      }
    case Open => SubKeepsPlain(x, "(", rest, name, value);
    case Close => SubKeepsPlain(x, ")", rest, name, value);
  }

  lemma {:induction false} SubToTheEnd(x: Chars, a: string, name: string, value: string)
    requires IsName(x, name)
    ensures Hit(x, a, name) ==> !(a <= Sub(x, a, name, value))
    ensures !Hit(x, a, name) ==> Sub(x, a, name, value) == a
  {
    if a == "" {
    } else {
      hide Hit, Sub, MatchesRef;
      HitSplit(x, a, name);
      if MatchesRef(x, a, name) {
        MatchStarts(x, a, name);
        SubMatch(x, a, name, value);
      } else {
        SubToTheEnd(x, a[1..], name, value);
        SubSkip(x, a, name, value);
        PrefixCons(a[0], a[1..], Sub(x, a[1..], name, value));
        assert a == [a[0]] + a[1..];
      }
    }
  }

  ghost predicate AllFit(x: Chars, ts: seq<Token>, name: string) {
    forall t :: t in ts ==> Fits(x, t, name)
  }

  lemma ReplaceFirst(t: Token, ts: seq<Token>, name: string, block: seq<Token>)
    ensures Replace([t] + ts, name, block) == (if t == Var(name) then block else [t]) + Replace(ts, name, block)
  {
    assert ([t] + ts)[1..] == ts;
  }

  lemma PrintCons(t: Token, ts: seq<Token>)
    ensures Print([t] + ts) == PrintToken(t) + Print(ts)
  {
    assert ([t] + ts)[1..] == ts;
  }

  lemma Assoc<T>(a: seq<T>, b: seq<T>, c: seq<T>)
    ensures (a + b) + c == a + (b + c)
  {
  }

  lemma {:induction false} PrintConcat(a: seq<Token>, b: seq<Token>)
    ensures Print(a + b) == Print(a) + Print(b)
  {
    if a == [] {
      assert a + b == b;
    } else {
      PrintCons(a[0], a[1..] + b);
      Assoc([a[0]], a[1..], b);
      assert a == [a[0]] + a[1..];
      PrintConcat(a[1..], b);
      hide Print, PrintToken;
      Assoc(PrintToken(a[0]), Print(a[1..]), Print(b));
    }
  }

  lemma PrintBlock(value: seq<Token>)
    ensures Print(Block(value)) == "(" + Print(value) + ")"
  {
    PrintCons(Open, value + [Close]);
    PrintConcat(value, [Close]);
    PrintCons(Close, []);
    assert [Close] + [] == [Close] && Print([]) == "" && ")" + "" == ")";
    Assoc([Open], value, [Close]);
    hide Print;
    Assoc("(", Print(value), ")");
  }

  /**
   * The textual replacement of one name is the replacement of the references to it, exactly when no literal or
   * comment holds a match and no other variable's name is torn.
   */
  lemma {:induction false} SubIsReplaceExactly(x: Chars, ts: seq<Token>, name: string, value: string, block: seq<Token>)
    requires Sound(x) && Chain(x, ts) && IsName(x, name) && x.word(Last(name)) && Print(block) == "(" + value + ")"
    ensures Sub(x, Print(ts), name, value) == Print(Replace(ts, name, block)) <==> AllFit(x, ts, name)
  {
    if ts != [] {
      var t, tail := ts[0], ts[1..];
      SubAtToken(x, t, Print(tail), name, value);
      SubIsReplaceExactly(x, tail, name, value, block);
      hide Whole, Follows, Fits, Sub, Chain;
      ReplacePrints(t, tail, name, block);
      AllFitCons(x, t, tail, name);
      assert ts == [t] + tail;
      PrintCons(t, tail);
      hide AllFit, Replace, Print, PrintToken;
      var head := if t == Var(name) then "(" + value + ")" else PrintToken(t);
      var a, b := Sub(x, Print(tail), name, value), Print(Replace(tail, name, block));
      assert head + a == head + b <==> a == b by {
        assert (head + a)[|head|..] == a && (head + b)[|head|..] == b;
      }
      assert head <= head + b;
    }
  }

  lemma ReplacePrints(t: Token, tail: seq<Token>, name: string, block: seq<Token>)
    ensures Print(Replace([t] + tail, name, block))
         == (if t == Var(name) then Print(block) else PrintToken(t)) + Print(Replace(tail, name, block))
  {
    ReplaceFirst(t, tail, name, block);
    PrintConcat(block, Replace(tail, name, block));
    PrintCons(t, Replace(tail, name, block));
  }

  lemma AllFitCons(x: Chars, t: Token, tail: seq<Token>, name: string)
    ensures AllFit(x, [t] + tail, name) <==> Fits(x, t, name) && AllFit(x, tail, name)
  {
    hide Fits;
    assert forall u :: u in [t] + tail <==> u == t || u in tail;
  }

  // ---------- All replacements ----------

  /** No literal or comment is left open. */
  predicate Ended(ts: seq<Token>) {
    forall t :: t in ts ==> !t.Unclosed?
  }

  /** The first character of the rest is what it was, or the '(' of a block in place of a '$'. */
  lemma ReplaceLeads(x: Chars, ts: seq<Token>, name: string, value: seq<Token>)
    requires Chain(x, ts)
    ensures var a, b := Print(ts), Print(Replace(ts, name, Block(value)));
            && (a == "" <==> b == "")
            && (a != "" ==> a[0] == b[0] || (a[0] == '$' && b[0] == '('))
  {
    if ts != [] {
      var tail := ts[1..];
      assert ts == [ts[0]] + tail;
      ReplacePrints(ts[0], tail, name, Block(value));
      PrintBlock(value);
      hide First, Replace, Block;
    }
  }

  lemma {:induction false} ClosedChain(x: Chars, a: seq<Token>, rest: seq<Token>)
    requires Sound(x) && Chain(x, a) && Ended(a) && Chain(x, rest)
    ensures Chain(x, a + ([Close] + rest))
  {
    var end := [Close] + rest;
    if a == [] {
      assert a + end == end && end[1..] == rest;
    } else {
      var t, tail := a[0], a[1..];
      assert t in a && Ended(tail);
      ClosedChain(x, tail, rest);
      assert a == [t] + tail;
      Assoc([t], tail, end);
      PrintConcat(tail, end);
      PrintCons(Close, rest);
      hide Ended, Print, Whole, Chain;
      FollowsClosed(x, t, Print(tail), Print(rest));
      hide Follows;
      ChainCons(x, t, tail + end);
    }
  }

  lemma FollowsClosed(x: Chars, t: Token, a: string, rest: string)
    requires Sound(x) && Follows(x, t, a) && !t.Unclosed?
    ensures Follows(x, t, a + (")" + rest))
  {
  }

  lemma BlockChain(x: Chars, value: seq<Token>, rest: seq<Token>)
    requires Sound(x) && Chain(x, value) && Ended(value) && (Print(value) == "" || Print(value)[0] != ':') && Chain(x, rest)
    ensures Chain(x, Block(value) + rest)
  {
    var end := [Close] + rest;
    ClosedChain(x, value, rest);
    PrintConcat(value, end);
    PrintCons(Close, rest);
    assert Block(value) + rest == [Open] + (value + end);
    assert ([Open] + (value + end))[1..] == value + end;
    hide Chain, Print;
    ChainCons(x, Open, value + end);
  }

  lemma ChainCons(x: Chars, t: Token, ts: seq<Token>)
    requires Whole(x, t) && Follows(x, t, Print(ts)) && Chain(x, ts)
    ensures Chain(x, [t] + ts)
  {
    assert ([t] + ts)[1..] == ts;
  }

  lemma {:induction false} ReplaceKeepsChain(x: Chars, ts: seq<Token>, name: string, value: seq<Token>)
    requires Sound(x) && Chain(x, ts) && Ended(ts)
    requires Chain(x, value) && Ended(value) && (Print(value) == "" || Print(value)[0] != ':')
    ensures Chain(x, Replace(ts, name, Block(value)))
  {
    if ts != [] {
      var t, tail := ts[0], ts[1..];
      assert t in ts && Ended(tail) && ts == [t] + tail;
      ReplaceFirst(t, tail, name, Block(value));
      ReplaceLeads(x, tail, name, value);
      ReplaceKeepsChain(x, tail, name, value);
      var rest := Replace(tail, name, Block(value));
      hide Ended, Print, First, Replace, Block;
      if t == Var(name) {
        BlockChain(x, value, rest);
      } else {
        FollowsStill(x, t, Print(tail), Print(rest));
        hide Follows;
        ChainCons(x, t, rest);
      }
    }
  }

  lemma FollowsStill(x: Chars, t: Token, a: string, b: string)
    requires Sound(x) && Follows(x, t, a) && !t.Unclosed?
    requires (a == "" <==> b == "") && (a != "" ==> a[0] == b[0] || (a[0] == '$' && b[0] == '('))
    ensures Follows(x, t, b)
  {
  }

  function ReplaceFrom(x: Chars, ts: seq<Token>, lets: seq<Let>, i: nat): seq<Token>
    requires i <= |lets|
    decreases |lets| - i
  {
    if i == |lets| then ts
    else ReplaceFrom(x, Replace(ts, lets[i].name, Block(Lex(x, lets[i].value))), lets, i + 1)
  }

  /** The token is a reference that is replaced before the k-th binding is. */
  predicate GoneBefore(t: Token, lets: seq<Let>, i: nat, k: nat)
    requires k <= |lets|
  {
    t.Var? && exists j :: i <= j < k && lets[j].name == t.name
  }

  /** From the i-th binding on, no replacement touches a literal, a comment, or another variable's name. */
  ghost predicate FitsFrom(x: Chars, ts: seq<Token>, lets: seq<Let>, i: nat) {
    && Ended(ts)
    && forall t, k :: t in ts && i <= k < |lets| ==> Fits(x, t, lets[k].name) || GoneBefore(t, lets, i, k)
  }

  /** The bindings: names end in word characters, and values are whole and fit what is replaced after them. */
  ghost predicate LetsFit(x: Chars, lets: seq<Let>) {
    forall i :: 0 <= i < |lets| ==>
      && IsName(x, lets[i].name) && x.word(Last(lets[i].name))
      && (lets[i].value == "" || lets[i].value[0] != ':')
      && FitsFrom(x, Lex(x, lets[i].value), lets, i + 1)
  }

  lemma FitsNow(x: Chars, ts: seq<Token>, lets: seq<Let>, i: nat)
    requires i < |lets| && FitsFrom(x, ts, lets, i)
    ensures AllFit(x, ts, lets[i].name)
  {
    hide Fits;
    forall t | t in ts ensures Fits(x, t, lets[i].name) {
      assert Fits(x, t, lets[i].name) || GoneBefore(t, lets, i, i);
    }
  }

  lemma {:induction false} InReplace(t: Token, ts: seq<Token>, name: string, block: seq<Token>)
    requires t in Replace(ts, name, block)
    ensures (t in ts && t != Var(name)) || t in block
  {
    if ts != [] && !(t in (if ts[0] == Var(name) then block else [ts[0]])) {
      InReplace(t, ts[1..], name, block);
    }
  }

  lemma FitsNext(x: Chars, ts: seq<Token>, lets: seq<Let>, i: nat)
    requires i < |lets| && FitsFrom(x, ts, lets, i) && FitsFrom(x, Lex(x, lets[i].value), lets, i + 1)
    ensures FitsFrom(x, Replace(ts, lets[i].name, Block(Lex(x, lets[i].value))), lets, i + 1)
  {
    var v := Lex(x, lets[i].value);
    var next := Replace(ts, lets[i].name, Block(v));
    hide Replace, Lex;
    forall t | t in next ensures !t.Unclosed? {
      InReplace(t, ts, lets[i].name, Block(v));
    }
    forall t, k | t in next && i + 1 <= k < |lets| ensures Fits(x, t, lets[k].name) || GoneBefore(t, lets, i + 1, k) {
      InReplace(t, ts, lets[i].name, Block(v));
      if t in ts && t != Var(lets[i].name) {
        GoneLater(t, lets, i, k);
        hide Fits, GoneBefore;
        assert Fits(x, t, lets[k].name) || GoneBefore(t, lets, i, k);
      } else if t in v {
      } else {
        assert t == Open || t == Close;
      }
    }
  }

  lemma GoneLater(t: Token, lets: seq<Let>, i: nat, k: nat)
    requires i < k <= |lets| && t != Var(lets[i].name)
    ensures GoneBefore(t, lets, i, k) ==> GoneBefore(t, lets, i + 1, k)
  {
  }

  /** All the textual replacements are replacements of references. */
  lemma {:induction false} SubFromIsReplace(x: Chars, s: string, lets: seq<Let>, i: nat)
    requires Sound(x) && i <= |lets| && LetsFit(x, lets) && FitsFrom(x, Lex(x, s), lets, i)
    ensures Lex(x, SubFrom(x, s, lets, i)) == ReplaceFrom(x, Lex(x, s), lets, i)
    decreases |lets| - i
  {
    if i < |lets| {
      var ts, v := Lex(x, s), Lex(x, lets[i].value);
      var next := Replace(ts, lets[i].name, Block(v));
      LexReads(x, s);
      LexReads(x, lets[i].value);
      PrintBlock(v);
      FitsNow(x, ts, lets, i);
      FitsNext(x, ts, lets, i);
      SubIsReplaceExactly(x, ts, lets[i].name, lets[i].value, Block(v));
      ReplaceKeepsChain(x, ts, lets[i].name, v);
      LexPrint(x, next);
      hide Lex, Sub, Replace, Block, Chain, Print, Fits, AllFit;
      SubFromIsReplace(x, Sub(x, s, lets[i].name, lets[i].value), lets, i + 1);
    }
  }

  // ---------- No variable is left ----------

  /** No let variable occurs in the text. */
  ghost predicate Closed(x: Chars, s: string, lets: seq<Let>) {
    forall k :: 0 <= k < |lets| ==> Var(lets[k].name) !in Lex(x, s)
  }

  /** No value mentions its own variable or an earlier one. */
  ghost predicate Forward(x: Chars, lets: seq<Let>) {
    forall k, j :: 0 <= k <= j < |lets| ==> Var(lets[k].name) !in Lex(x, lets[j].value)
  }

  ghost predicate DistinctNames(lets: seq<Let>) {
    forall i, j :: 0 <= i < j < |lets| ==> lets[i].name != lets[j].name
  }

  lemma {:induction false} ReplacedIsGone(x: Chars, ts: seq<Token>, lets: seq<Let>, i: nat, k: nat)
    requires Forward(x, lets) && i <= |lets| && k < |lets| && (i <= k || Var(lets[k].name) !in ts)
    ensures Var(lets[k].name) !in ReplaceFrom(x, ts, lets, i)
    decreases |lets| - i
  {
    if i < |lets| {
      var v := Lex(x, lets[i].value);
      var next := Replace(ts, lets[i].name, Block(v));
      if i >= k {
        if Var(lets[k].name) in next {
          InReplace(Var(lets[k].name), ts, lets[i].name, Block(v));
          assert false;
        }
      }
      hide Replace, Lex;
      ReplacedIsGone(x, next, lets, i + 1, k);
    }
  }

  lemma {:induction false} UnreplacedStays(ts: seq<Token>, t: Token, name: string, block: seq<Token>)
    requires t in ts && t != Var(name)
    ensures t in Replace(ts, name, block)
  {
    if ts[0] != t {
      UnreplacedStays(ts[1..], t, name, block);
    }
  }

  lemma {:induction false} VarStays(x: Chars, ts: seq<Token>, lets: seq<Let>, i: nat, name: string)
    requires i <= |lets| && Var(name) in ts && forall k :: i <= k < |lets| ==> lets[k].name != name
    ensures Var(name) in ReplaceFrom(x, ts, lets, i)
    decreases |lets| - i
  {
    if i < |lets| {
      hide Lex, Block, Replace;
      UnreplacedStays(ts, Var(name), lets[i].name, Block(Lex(x, lets[i].value)));
      VarStays(x, Replace(ts, lets[i].name, Block(Lex(x, lets[i].value))), lets, i + 1, name);
    }
  }

  /** Replacing a lone reference: nothing happens before its own binding. */
  lemma {:induction false} LoneReference(x: Chars, lets: seq<Let>, i: nat, j: nat)
    requires DistinctNames(lets) && i <= j < |lets|
    ensures ReplaceFrom(x, [Var(lets[j].name)], lets, i) == ReplaceFrom(x, Block(Lex(x, lets[j].value)), lets, j + 1)
    decreases j - i
  {
    hide Lex, Block;
    var t, block := Var(lets[j].name), Block(Lex(x, lets[i].value));
    assert [t] + [] == [t] && block + [] == block;
    ReplaceFirst(t, [], lets[i].name, block);
    assert Replace([], lets[i].name, block) == [];
    hide Replace;
    if i < j {
      LoneReference(x, lets, i + 1, j);
    }
  }

  lemma SingleReference(x: Chars, name: string)
    requires IsName(x, name)
    ensures Lex(x, "$" + name) == [Var(name)]
  {
    VarAgain(x, name, "");
    assert "$" + name + "" == "$" + name && ("$" + name)[1 + |name|..] == "";
    assert [Var(name)] + [] == [Var(name)] && Lex(x, "") == [];
  }

  /** Where the pattern tears a let name, the name torn is that of an earlier binding. */
  ghost predicate NamesInOrder(x: Chars, lets: seq<Let>) {
    forall j, k :: 0 <= j < |lets| && 0 <= k < |lets| && Torn(x, lets[j].name, lets[k].name) ==> j < k
  }

  lemma {:induction false} ParenthesisStays(x: Chars, s: string, lets: seq<Let>, i: nat)
    requires i <= |lets| && s != "" && s[0] == '('
    ensures var r := SubFrom(x, s, lets, i); r != "" && r[0] == '('
    decreases |lets| - i
  {
    if i < |lets| {
      ParenthesisStays(x, Sub(x, s, lets[i].name, lets[i].value), lets, i + 1);
    }
  }

  lemma {:induction false} NameSurvives(x: Chars, lets: seq<Let>, name: string, i: nat)
    requires Sound(x) && i <= |lets| && IsName(x, name)
    requires forall k :: 0 <= k < |lets| ==> IsName(x, lets[k].name) && x.word(Last(lets[k].name)) && lets[k].name != name
    ensures SubFrom(x, "$" + name, lets, i) == "$" + name <==> forall k :: i <= k < |lets| ==> !Torn(x, name, lets[k].name)
    decreases |lets| - i
  {
    if i < |lets| {
      var s := "$" + name;
      var next := Sub(x, s, lets[i].name, lets[i].value);
      SubFromStep(x, s, lets, i);
      OneName(x, name, lets[i].name, lets[i].value);
      hide Torn, Sub, SubFrom, MatchesRef;
      if Torn(x, name, lets[i].name) {
        ParenthesisStays(x, next, lets, i + 1);
      } else {
        NameSurvives(x, lets, name, i + 1);
      }
    }
  }

  lemma SubFromStep(x: Chars, s: string, lets: seq<Let>, i: nat)
    requires i < |lets|
    ensures SubFrom(x, s, lets, i) == SubFrom(x, Sub(x, s, lets[i].name, lets[i].value), lets, i + 1)
  {
  }

  lemma OneName(x: Chars, name: string, other: string, value: string)
    requires Sound(x) && IsName(x, name) && IsName(x, other) && x.word(Last(other)) && other != name
    ensures var r := Sub(x, "$" + name, other, value);
            if Torn(x, name, other) then r != "" && r[0] == '(' else r == "$" + name
  {
    var s := "$" + name;
    assert s + "" == s;
    VarMatchesExactly(x, name, "", other);
    SubAtVar(x, name, "", other, value);
    assert Sub(x, "", other, value) == "";
    hide Torn, IsName, Sound;
    if MatchesRef(x, s, other) {
      assert Sub(x, s, other, value)[0] == '(';
    }
  }

  /**
   * The exact condition on names: every let variable's own text is still there when its binding's turn comes,
   * if and only if no name is torn by that of an earlier binding.
   */
  lemma NamesSurviveExactly(x: Chars, lets: seq<Let>)
    requires Sound(x) && DistinctNames(lets)
    requires forall i :: 0 <= i < |lets| ==> IsName(x, lets[i].name) && x.word(Last(lets[i].name))
    ensures (forall j :: 0 <= j < |lets| ==> SubFrom(x, "$" + lets[j].name, lets[..j], 0) == "$" + lets[j].name)
            <==> NamesInOrder(x, lets)
  {
    hide SubFrom, Torn, IsName, Sound;
    forall j | 0 <= j < |lets|
      ensures SubFrom(x, "$" + lets[j].name, lets[..j], 0) == "$" + lets[j].name
              <==> forall k :: 0 <= k < j ==> !Torn(x, lets[j].name, lets[k].name)
    {
      assert forall k :: 0 <= k < j ==> lets[..j][k] == lets[k];
      NameSurvives(x, lets[..j], lets[j].name, 0);
      assert forall k :: 0 <= k < j ==> (Torn(x, lets[j].name, lets[k].name) <==> Torn(x, lets[j].name, lets[..j][k].name));
    }
    forall j | 0 <= j < |lets| ensures !Torn(x, lets[j].name, lets[j].name) {
      TornDiffers(x, lets[j].name, lets[j].name);
    }
  }

  lemma LoneReferenceFits(x: Chars, lets: seq<Let>, j: nat)
    requires NamesInOrder(x, lets) && j < |lets|
    ensures FitsFrom(x, [Var(lets[j].name)], lets, 0)
  {
    forall t, k | t in [Var(lets[j].name)] && 0 <= k < |lets| ensures Fits(x, t, lets[k].name) || GoneBefore(t, lets, 0, k) {
      if Torn(x, lets[j].name, lets[k].name) {
        assert lets[j].name == t.name;
      }
    }
  }

  lemma BackwardLeavesVariable(x: Chars, lets: seq<Let>, k: nat, j: nat)
    requires Sound(x) && LetsFit(x, lets) && DistinctNames(lets) && NamesInOrder(x, lets)
    requires k <= j < |lets| && Var(lets[k].name) in Lex(x, lets[j].value)
    ensures FitsFrom(x, Lex(x, "$" + lets[j].name), lets, 0)
    ensures !Closed(x, SubFrom(x, "$" + lets[j].name, lets, 0), lets)
  {
    SingleReference(x, lets[j].name);
    LoneReferenceFits(x, lets, j);
    hide Lex, SubFrom, FitsFrom, NamesInOrder;
    SubFromIsReplace(x, "$" + lets[j].name, lets, 0);
    hide LetsFit;
    LoneReference(x, lets, 0, j);
    VarStays(x, Block(Lex(x, lets[j].value)), lets, j + 1, lets[k].name);
  }

  /** Whatever the expression, no let variable is left, exactly when no value mentions its own variable or an earlier one. */
  lemma ClosedExactlyWhenForward(x: Chars, lets: seq<Let>)
    requires Sound(x) && LetsFit(x, lets) && DistinctNames(lets) && NamesInOrder(x, lets)
    ensures (forall expr :: FitsFrom(x, Lex(x, expr), lets, 0) ==> Closed(x, SubFrom(x, expr, lets, 0), lets)) <==> Forward(x, lets)
  {
    if Forward(x, lets) {
      forall expr | FitsFrom(x, Lex(x, expr), lets, 0) ensures Closed(x, SubFrom(x, expr, lets, 0), lets) {
        FitIsClosed(x, expr, lets);
      }
    } else {
      var k, j :| 0 <= k <= j < |lets| && Var(lets[k].name) in Lex(x, lets[j].value);
      BackwardLeavesVariable(x, lets, k, j);
    }
  }

  lemma FitIsClosed(x: Chars, expr: string, lets: seq<Let>)
    requires Sound(x) && LetsFit(x, lets) && Forward(x, lets) && FitsFrom(x, Lex(x, expr), lets, 0)
    ensures Closed(x, SubFrom(x, expr, lets, 0), lets)
  {
    SubFromIsReplace(x, expr, lets, 0);
    hide Lex, SubFrom, LetsFit, FitsFrom, Forward;
    forall k | 0 <= k < |lets| ensures Var(lets[k].name) !in Lex(x, SubFrom(x, expr, lets, 0)) {
      ReplacedIsGone(x, Lex(x, expr), lets, 0, k);
    }
  }

  // ---------- Tokens as a tree ----------

  /** A token of its own, a reference, or what stands between a matching pair of parentheses. */
  datatype Piece = Text(token: Token) | Ref(name: string) | Group(inner: seq<Piece>)

  datatype Pieces = Pieces(pieces: seq<Piece>, rest: seq<Token>)

  /** As many pieces as there are before the end, or before a closing parenthesis that none of them opens. */
  function ReadPieces(ts: seq<Token>): (r: Option<Pieces>)
    ensures r.Some? ==> |r.value.rest| <= |ts| && (r.value.rest == [] || r.value.rest[0].Close?)
    decreases |ts|
  {
    if ts == [] || ts[0].Close? then Some(Pieces([], ts))
    else if ts[0].Open? then
      var inner := ReadPieces(ts[1..]);
      if inner.None? || inner.value.rest == [] then None
      else
        var more := ReadPieces(inner.value.rest[1..]);
        if more.None? then None else Some(Pieces([Group(inner.value.pieces)] + more.value.pieces, more.value.rest))
    else
      var more := ReadPieces(ts[1..]);
      if more.None? then None
      else Some(Pieces([if ts[0].Var? then Ref(ts[0].name) else Text(ts[0])] + more.value.pieces, more.value.rest))
  }

  /** The whole text as a tree; None when its parentheses do not match. */
  function Read(ts: seq<Token>): Option<seq<Piece>> {
    var r := ReadPieces(ts);
    if r.None? || r.value.rest != [] then None else Some(r.value.pieces)
  }

  predicate Tidy(ps: seq<Piece>)
    decreases ps
  {
    ps == [] || ((match ps[0]
                  case Text(t) => !t.Var? && !t.Open? && !t.Close?
                  case Ref(_) => true
                  case Group(inner) => Tidy(inner)) && Tidy(ps[1..]))
  }

  function Flatten(ps: seq<Piece>): seq<Token>
    decreases ps, 1
  {
    if ps == [] then [] else FlattenOne(ps[0]) + Flatten(ps[1..])
  }

  function FlattenOne(p: Piece): seq<Token>
    decreases p, 0
  {
    match p
    case Text(t) => [t]
    case Ref(name) => [Var(name)]
    case Group(inner) => Block(Flatten(inner))
  }

  lemma BlockBefore(inner: seq<Token>, tail: seq<Token>, rest: seq<Token>)
    ensures Block(inner) + tail + rest == [Open] + (inner + ([Close] + (tail + rest)))
  {
  }

  /** A tree read from tokens flattens to them. */
  lemma {:induction false} ReadFlattens(ts: seq<Token>)
    ensures var r := ReadPieces(ts); r.Some? ==> Tidy(r.value.pieces) && ts == Flatten(r.value.pieces) + r.value.rest
    decreases |ts|
  {
    var r := ReadPieces(ts);
    if ts == [] || ts[0].Close? {
      assert Flatten([]) + ts == ts;
    } else if r.Some? {
      hide Flatten, Tidy;
      if ts[0].Open? {
        var inner := ReadPieces(ts[1..]).value;
        var more := ReadPieces(inner.rest[1..]).value;
        ReadFlattens(ts[1..]);
        ReadFlattens(inner.rest[1..]);
        hide ReadPieces;
        FlattenCons(Group(inner.pieces), more.pieces);
        TidyCons(Group(inner.pieces), more.pieces);
        assert ts == [Open] + ts[1..] && inner.rest == [Close] + inner.rest[1..];
        BlockBefore(Flatten(inner.pieces), Flatten(more.pieces), more.rest);
      } else {
        var more := ReadPieces(ts[1..]).value;
        var p := if ts[0].Var? then Ref(ts[0].name) else Text(ts[0]);
        ReadFlattens(ts[1..]);
        hide ReadPieces;
        FlattenCons(p, more.pieces);
        TidyCons(p, more.pieces);
        assert ts == [ts[0]] + ts[1..];
        Assoc([ts[0]], Flatten(more.pieces), more.rest);
      }
    }
  }

  lemma FlattenCons(p: Piece, ps: seq<Piece>)
    ensures Flatten([p] + ps) == FlattenOne(p) + Flatten(ps)
  {
    assert ([p] + ps)[1..] == ps;
  }

  lemma TidyCons(p: Piece, ps: seq<Piece>)
    ensures Tidy([p] + ps) <==> (match p
                                 case Text(t) => !t.Var? && !t.Open? && !t.Close?
                                 case Ref(_) => true
                                 case Group(inner) => Tidy(inner)) && Tidy(ps)
  {
    assert ([p] + ps)[1..] == ps;
  }

  /** Flattened, a tree reads back. */
  lemma {:induction false} FlattenReads(ps: seq<Piece>, rest: seq<Token>)
    requires Tidy(ps) && (rest == [] || rest[0].Close?)
    ensures ReadPieces(Flatten(ps) + rest) == Some(Pieces(ps, rest))
    decreases ps
  {
    if ps == [] {
      assert Flatten(ps) + rest == rest;
    } else {
      var p, tail := ps[0], ps[1..];
      assert ps == [p] + tail;
      TidyCons(p, tail);
      hide Flatten, Tidy, ReadPieces;
      FlattenCons(p, tail);
      FlattenReads(tail, rest);
      var after := Flatten(tail) + rest;
      if p.Group? {
        FlattenReads(p.inner, [Close] + after);
        GroupReads(Flatten(p.inner), p.inner, after, tail, rest);
        BlockBefore(Flatten(p.inner), Flatten(tail), rest);
      } else {
        PieceReads(p, after, tail, rest);
        Assoc([if p.Ref? then Var(p.name) else p.token], Flatten(tail), rest);
      }
    }
  }

  lemma PieceReads(p: Piece, after: seq<Token>, tail: seq<Piece>, rest: seq<Token>)
    requires ReadPieces(after) == Some(Pieces(tail, rest)) && !p.Group?
    requires p.Text? ==> !p.token.Var? && !p.token.Open? && !p.token.Close?
    ensures ReadPieces([if p.Ref? then Var(p.name) else p.token] + after) == Some(Pieces([p] + tail, rest))
  {
    assert ([if p.Ref? then Var(p.name) else p.token] + after)[1..] == after;
  }

  lemma GroupReads(inner: seq<Token>, ps: seq<Piece>, after: seq<Token>, tail: seq<Piece>, rest: seq<Token>)
    requires ReadPieces(inner + ([Close] + after)) == Some(Pieces(ps, [Close] + after))
    requires ReadPieces(after) == Some(Pieces(tail, rest))
    ensures ReadPieces([Open] + (inner + ([Close] + after))) == Some(Pieces([Group(ps)] + tail, rest))
  {
    assert ([Open] + (inner + ([Close] + after)))[1..] == inner + ([Close] + after);
    assert ([Close] + after)[1..] == after;
  }

  /** Reading a tree and flattening one undo each other. */
  lemma ReadBack(ps: seq<Piece>, ts: seq<Token>)
    ensures Read(ts) == Some(ps) <==> Tidy(ps) && ts == Flatten(ps)
  {
    ReadFlattens(ts);
    if Read(ts) == Some(ps) {
      assert Flatten(ps) + [] == Flatten(ps);
    }
    if Tidy(ps) {
      FlattenReads(ps, []);
      assert Flatten(ps) + [] == Flatten(ps);
    }
  }

  // ---------- The tree the inlining stands for ----------

  /** The position, from i on, of the binding of a name. */
  function Find(lets: seq<Let>, i: nat, name: string): (j: Option<nat>)
    requires i <= |lets|
    ensures j.Some? ==> i <= j.value < |lets| && lets[j.value].name == name
    ensures j.None? ==> forall k :: i <= k < |lets| ==> lets[k].name != name
    decreases |lets| - i
  {
    if i == |lets| then None else if lets[i].name == name then Some(i) else Find(lets, i + 1, name)
  }

  /** The parentheses of every value match within the value. */
  ghost predicate Balanced(x: Chars, lets: seq<Let>) {
    forall j :: 0 <= j < |lets| ==> Read(Lex(x, lets[j].value)).Some?
  }

  function ValueTree(x: Chars, l: Let): seq<Piece> {
    var r := Read(Lex(x, l.value));
    if r.Some? then r.value else []
  }

  lemma ValueTreeReads(x: Chars, lets: seq<Let>, j: nat)
    requires Balanced(x, lets) && j < |lets|
    ensures Flatten(ValueTree(x, lets[j])) == Lex(x, lets[j].value) && Tidy(ValueTree(x, lets[j]))
  {
    ReadBack(ValueTree(x, lets[j]), Lex(x, lets[j].value));
  }

  /** Every reference to a binding from i on becomes the group of its value, whose own later references do too. */
  function Inline(x: Chars, ps: seq<Piece>, lets: seq<Let>, i: nat): seq<Piece>
    requires i <= |lets|
    decreases |lets| - i, ps, 1
  {
    if ps == [] then [] else [InlineOne(x, ps[0], lets, i)] + Inline(x, ps[1..], lets, i)
  }

  function InlineOne(x: Chars, p: Piece, lets: seq<Let>, i: nat): Piece
    requires i <= |lets|
    decreases |lets| - i, p, 0
  {
    match p
    case Text(_) => p
    case Group(inner) => Group(Inline(x, inner, lets, i))
    case Ref(name) =>
      var j := Find(lets, i, name);
      if j.None? then p else Group(Inline(x, ValueTree(x, lets[j.value]), lets, j.value + 1))
  }

  lemma InlineCons(x: Chars, p: Piece, ps: seq<Piece>, lets: seq<Let>, i: nat)
    requires i <= |lets|
    ensures Inline(x, [p] + ps, lets, i) == [InlineOne(x, p, lets, i)] + Inline(x, ps, lets, i)
  {
    assert ([p] + ps)[1..] == ps;
  }

  lemma {:induction false} ReplaceConcat(a: seq<Token>, b: seq<Token>, name: string, block: seq<Token>)
    ensures Replace(a + b, name, block) == Replace(a, name, block) + Replace(b, name, block)
  {
    if a == [] {
      assert a + b == b;
    } else {
      assert (a + b)[1..] == a[1..] + b;
      ReplaceConcat(a[1..], b, name, block);
    }
  }

  lemma {:induction false} ReplaceFromConcat(x: Chars, a: seq<Token>, b: seq<Token>, lets: seq<Let>, i: nat)
    requires i <= |lets|
    ensures ReplaceFrom(x, a + b, lets, i) == ReplaceFrom(x, a, lets, i) + ReplaceFrom(x, b, lets, i)
    decreases |lets| - i
  {
    if i < |lets| {
      var name, block := lets[i].name, Block(Lex(x, lets[i].value));
      ReplaceConcat(a, b, name, block);
      ReplaceFromConcat(x, Replace(a, name, block), Replace(b, name, block), lets, i + 1);
    }
  }

  lemma {:induction false} ReplaceFromEmpty(x: Chars, lets: seq<Let>, i: nat)
    requires i <= |lets|
    ensures ReplaceFrom(x, [], lets, i) == []
    decreases |lets| - i
  {
    if i < |lets| {
      ReplaceFromEmpty(x, lets, i + 1);
    }
  }

  lemma ReplaceOne(t: Token, name: string, block: seq<Token>)
    ensures Replace([t], name, block) == if t == Var(name) then block else [t]
  {
    ReplaceFirst(t, [], name, block);
    assert [t] + [] == [t] && block + [] == block;
  }

  lemma ReplaceFromStep(x: Chars, ts: seq<Token>, lets: seq<Let>, i: nat)
    requires i < |lets|
    ensures ReplaceFrom(x, ts, lets, i) == ReplaceFrom(x, Replace(ts, lets[i].name, Block(Lex(x, lets[i].value))), lets, i + 1)
  {
  }

  lemma FindStep(lets: seq<Let>, i: nat, name: string)
    requires i < |lets|
    ensures Find(lets, i, name) == if lets[i].name == name then Some(i) else Find(lets, i + 1, name)
  {
  }

  lemma {:induction false} ReplaceFromToken(x: Chars, t: Token, lets: seq<Let>, i: nat)
    requires i <= |lets|
    ensures var j := if t.Var? then Find(lets, i, t.name) else None;
            ReplaceFrom(x, [t], lets, i)
            == if j.None? then [t] else ReplaceFrom(x, Block(Lex(x, lets[j.value].value)), lets, j.value + 1)
    decreases |lets| - i
  {
    hide Lex, Block, Replace, ReplaceFrom, Find;
    if i == |lets| {
      ReplaceFromEnd(x, [t], lets);
    } else {
      ReplaceOne(t, lets[i].name, Block(Lex(x, lets[i].value)));
      ReplaceFromStep(x, [t], lets, i);
      FindStep(lets, i, if t.Var? then t.name else "");
      if t != Var(lets[i].name) {
        ReplaceFromToken(x, t, lets, i + 1);
      }
    }
  }

  lemma ReplaceFromEnd(x: Chars, ts: seq<Token>, lets: seq<Let>)
    ensures ReplaceFrom(x, ts, lets, |lets|) == ts
  {
  }

  lemma ReplaceFromBlock(x: Chars, value: seq<Token>, lets: seq<Let>, i: nat)
    requires i <= |lets|
    ensures ReplaceFrom(x, Block(value), lets, i) == Block(ReplaceFrom(x, value, lets, i))
  {
    hide ReplaceFrom;
    ReplaceFromConcat(x, [Open] + value, [Close], lets, i);
    ReplaceFromConcat(x, [Open], value, lets, i);
    ReplaceFromToken(x, Open, lets, i);
    ReplaceFromToken(x, Close, lets, i);
  }

  /** Replacing the bindings one after another is inlining the tree and printing it. */
  lemma {:induction false} ReplaceIsInline(x: Chars, ps: seq<Piece>, lets: seq<Let>, i: nat)
    requires i <= |lets| && Tidy(ps) && Balanced(x, lets)
    ensures ReplaceFrom(x, Flatten(ps), lets, i) == Flatten(Inline(x, ps, lets, i))
    decreases |lets| - i, ps, 1
  {
    if ps == [] {
      ReplaceFromEmpty(x, lets, i);
    } else {
      var p, rest := ps[0], ps[1..];
      assert ps == [p] + rest;
      TidyCons(p, rest);
      hide ReplaceFrom, Inline, InlineOne, Flatten, FlattenOne, Tidy, Balanced;
      ReplaceOneIsInline(x, p, lets, i);
      ReplaceIsInline(x, rest, lets, i);
      InlineCons(x, p, rest, lets, i);
      FlattenCons(p, rest);
      FlattenCons(InlineOne(x, p, lets, i), Inline(x, rest, lets, i));
      ReplaceFromConcat(x, FlattenOne(p), Flatten(rest), lets, i);
    }
  }

  lemma {:induction false} ReplaceOneIsInline(x: Chars, p: Piece, lets: seq<Let>, i: nat)
    requires i <= |lets| && (p.Group? ==> Tidy(p.inner)) && (p.Text? ==> !p.token.Var?) && Balanced(x, lets)
    ensures ReplaceFrom(x, FlattenOne(p), lets, i) == FlattenOne(InlineOne(x, p, lets, i))
    decreases |lets| - i, p, 0
  {
    hide ReplaceFrom, Inline, Flatten, Tidy, Lex, Block;
    match p
    case Text(t) => ReplaceFromToken(x, t, lets, i);
    case Group(inner) =>
      ReplaceIsInline(x, inner, lets, i);
      ReplaceFromBlock(x, Flatten(inner), lets, i);
    case Ref(name) =>
      ReplaceFromToken(x, Var(name), lets, i);
      if Find(lets, i, name).Some? {
        var j := Find(lets, i, name).value;
        ValueTreeReads(x, lets, j);
        hide Balanced;
        ReplaceIsInline(x, ValueTree(x, lets[j]), lets, j + 1);
        ReplaceFromBlock(x, Lex(x, lets[j].value), lets, j + 1);
      }
  }

  lemma {:induction false} InlineIsTidy(x: Chars, ps: seq<Piece>, lets: seq<Let>, i: nat)
    requires i <= |lets| && Tidy(ps) && Balanced(x, lets)
    ensures Tidy(Inline(x, ps, lets, i))
    decreases |lets| - i, ps, 1
  {
    if ps != [] {
      var p, rest := ps[0], ps[1..];
      assert ps == [p] + rest;
      TidyCons(p, rest);
      TidyCons(InlineOne(x, p, lets, i), Inline(x, rest, lets, i));
      InlineIsTidy(x, rest, lets, i);
      InlineCons(x, p, rest, lets, i);
      hide Tidy, Balanced, Inline;
      match p
      case Text(_) =>
      case Group(inner) => InlineIsTidy(x, inner, lets, i);
      case Ref(name) =>
        if Find(lets, i, name).Some? {
          var j := Find(lets, i, name).value;
          ValueTreeReads(x, lets, j);
          InlineIsTidy(x, ValueTree(x, lets[j]), lets, j + 1);
        }
    }
  }

  /** What `_substitute_lets` returns reads back as the inlined tree. */
  lemma SubstitutionReadsAsTheTree(x: Chars, expr: string, lets: seq<Let>)
    requires Sound(x) && LetsFit(x, lets) && FitsFrom(x, Lex(x, expr), lets, 0)
    requires Balanced(x, lets) && Read(Lex(x, expr)).Some?
    ensures Read(Lex(x, SubFrom(x, expr, lets, 0))) == Some(Inline(x, Read(Lex(x, expr)).value, lets, 0))
  {
    var ps := Read(Lex(x, expr)).value;
    hide LetsFit, FitsFrom, Inline, Lex, SubFrom, Read, Tidy, Flatten;
    ReadBack(ps, Lex(x, expr));
    SubFromIsReplace(x, expr, lets, 0);
    ReplaceIsInline(x, ps, lets, 0);
    InlineIsTidy(x, ps, lets, 0);
    ReadBack(Inline(x, ps, lets, 0), Lex(x, SubFrom(x, expr, lets, 0)));
  }

  // ---------- The value of an expression ----------

  /** The expression with its references and groups left open. */
  function Skeleton(ps: seq<Piece>): seq<Option<Token>> {
    if ps == [] then [] else [if ps[0].Text? then Some(ps[0].token) else None] + Skeleton(ps[1..])
  }

  /**
   * A reference stands for its binding and a group for its own value; what the open expression makes of
   * those values is the parameter `sem`.
   */
  function Meaning<V>(ps: seq<Piece>, env: string -> V, sem: (seq<Option<Token>>, seq<V>) -> V): V
    decreases ps, 1
  {
    sem(Skeleton(ps), Args(ps, env, sem))
  }

  function Args<V>(ps: seq<Piece>, env: string -> V, sem: (seq<Option<Token>>, seq<V>) -> V): seq<V>
    decreases ps, 0
  {
    if ps == [] then [] else Arg(ps[0], env, sem) + Args(ps[1..], env, sem)
  }

  function Arg<V>(p: Piece, env: string -> V, sem: (seq<Option<Token>>, seq<V>) -> V): seq<V>
    decreases p, 2
  {
    match p
    case Text(_) => []
    case Ref(name) => [env(name)]
    case Group(inner) => [Meaning(inner, env, sem)]
  }

  /** Each let variable is bound to the value of its own expression under the same bindings. */
  ghost predicate Binds<V>(x: Chars, lets: seq<Let>, env: string -> V, sem: (seq<Option<Token>>, seq<V>) -> V) {
    forall j :: 0 <= j < |lets| ==> env(lets[j].name) == Meaning(ValueTree(x, lets[j]), env, sem)
  }

  lemma SkeletonCons(p: Piece, ps: seq<Piece>)
    ensures Skeleton([p] + ps) == [if p.Text? then Some(p.token) else None] + Skeleton(ps)
  {
    assert ([p] + ps)[1..] == ps;
  }

  lemma ArgsCons<V>(p: Piece, ps: seq<Piece>, env: string -> V, sem: (seq<Option<Token>>, seq<V>) -> V)
    ensures Args([p] + ps, env, sem) == Arg(p, env, sem) + Args(ps, env, sem)
  {
    assert ([p] + ps)[1..] == ps;
  }

  /** Under the let bindings, the inlined tree means what the tree means. */
  lemma {:induction false} InlineKeepsMeaning<V>(x: Chars, ps: seq<Piece>, lets: seq<Let>, i: nat, env: string -> V,
                                                 sem: (seq<Option<Token>>, seq<V>) -> V)
    requires i <= |lets| && Binds(x, lets, env, sem)
    ensures Skeleton(Inline(x, ps, lets, i)) == Skeleton(ps)
    ensures Args(Inline(x, ps, lets, i), env, sem) == Args(ps, env, sem)
    decreases |lets| - i, ps, 1
  {
    if ps == [] {
    } else {
      hide Skeleton, Args, Arg, Inline, InlineOne, Binds;
      var p, tail := ps[0], ps[1..];
      assert ps == [p] + tail;
      InlineCons(x, p, tail, lets, i);
      InlineKeepsMeaning(x, tail, lets, i, env, sem);
      InlineOneKeepsMeaning(x, p, lets, i, env, sem);
      var q := InlineOne(x, p, lets, i);
      SkeletonCons(p, tail);
      SkeletonCons(q, Inline(x, tail, lets, i));
      ArgsCons(p, tail, env, sem);
      ArgsCons(q, Inline(x, tail, lets, i), env, sem);
    }
  }

  lemma {:induction false} InlineOneKeepsMeaning<V>(x: Chars, p: Piece, lets: seq<Let>, i: nat, env: string -> V,
                                                    sem: (seq<Option<Token>>, seq<V>) -> V)
    requires i <= |lets| && Binds(x, lets, env, sem)
    ensures var q := InlineOne(x, p, lets, i);
            Arg(q, env, sem) == Arg(p, env, sem) && (q.Text? <==> p.Text?) && (p.Text? ==> q == p)
    decreases |lets| - i, p, 0
  {
    hide Skeleton, Args, Inline;
    match p
    case Text(_) =>
    case Group(inner) => InlineKeepsMeaning(x, inner, lets, i, env, sem);
    case Ref(name) =>
      var j := Find(lets, i, name);
      hide Find;
      if j.Some? {
        InlineKeepsMeaning(x, ValueTree(x, lets[j.value]), lets, j.value + 1, env, sem);
        BoundValue(x, lets, env, sem, j.value);
        hide Binds, ValueTree;
      }
  }

  lemma BoundValue<V>(x: Chars, lets: seq<Let>, env: string -> V, sem: (seq<Option<Token>>, seq<V>) -> V, j: nat)
    requires Binds(x, lets, env, sem) && j < |lets|
    ensures env(lets[j].name) == Meaning(ValueTree(x, lets[j]), env, sem)
  {
  }

  /** The value depends on the variables that occur, and on no others. */
  lemma {:induction false} MeaningAgrees<V>(ps: seq<Piece>, env: string -> V, other: string -> V, sem: (seq<Option<Token>>, seq<V>) -> V)
    requires forall name :: Var(name) in Flatten(ps) ==> env(name) == other(name)
    ensures Args(ps, env, sem) == Args(ps, other, sem)
    decreases ps
  {
    if ps != [] {
      var p, tail := ps[0], ps[1..];
      assert ps == [p] + tail;
      FlattenCons(p, tail);
      ArgsCons(p, tail, env, sem);
      ArgsCons(p, tail, other, sem);
      hide Args, Flatten;
      MeaningAgrees(tail, env, other, sem);
      if p.Group? {
        MeaningAgrees(p.inner, env, other, sem);
      }
    }
  }

  /**
   * Inlining preserves meaning: the text returned reads as a tree without let variables that, under any bindings
   * of the other variables kept, has the value the original has under the let bindings.
   */
  lemma SubstitutionKeepsMeaning<V>(x: Chars, expr: string, lets: seq<Let>, env: string -> V, other: string -> V,
                                    sem: (seq<Option<Token>>, seq<V>) -> V) returns (tree: seq<Piece>)
    requires Sound(x) && LetsFit(x, lets) && FitsFrom(x, Lex(x, expr), lets, 0)
    requires Balanced(x, lets) && Read(Lex(x, expr)).Some? && Forward(x, lets)
    requires Binds(x, lets, env, sem)
    requires forall name :: (forall k :: 0 <= k < |lets| ==> lets[k].name != name) ==> other(name) == env(name)
    ensures Read(Lex(x, SubFrom(x, expr, lets, 0))) == Some(tree) && Closed(x, SubFrom(x, expr, lets, 0), lets)
    ensures Meaning(tree, other, sem) == Meaning(Read(Lex(x, expr)).value, env, sem)
  {
    var ps := Read(Lex(x, expr)).value;
    tree := Inline(x, ps, lets, 0);
    SubstitutionReadsAsTheTree(x, expr, lets);
    FitIsClosed(x, expr, lets);
    InlineKeepsMeaning(x, ps, lets, 0, env, sem);
    var ts := Lex(x, SubFrom(x, expr, lets, 0));
    ReadBack(tree, ts);
    hide LetsFit, FitsFrom, Inline, Lex, SubFrom, Read, Tidy, Flatten, Binds, Forward, Balanced;
    forall name | Var(name) in Flatten(tree) ensures other(name) == env(name) {
      assert forall k :: 0 <= k < |lets| ==> Var(lets[k].name) !in ts;
    }
    MeaningAgrees(tree, env, other, sem);
  }

  // ---------- The let bindings exist ----------

  function Bound<V>(x: Chars, lets: seq<Let>, i: nat, sem: (seq<Option<Token>>, seq<V>) -> V, free: string -> V, name: string): V
    requires i <= |lets|
    decreases |lets| - i
  {
    var j := Find(lets, i, name);
    if j.None? then free(name)
    else Meaning(ValueTree(x, lets[j.value]), n => Bound(x, lets, j.value + 1, sem, free, n), sem)
  }

  lemma {:induction false} FindLater(lets: seq<Let>, i: nat, j: nat, name: string)
    requires i <= j <= |lets| && forall k :: i <= k < j ==> lets[k].name != name
    ensures Find(lets, i, name) == Find(lets, j, name)
    decreases j - i
  {
    if i < j {
      FindLater(lets, i + 1, j, name);
    }
  }

  lemma BoundAgrees<V>(x: Chars, lets: seq<Let>, sem: (seq<Option<Token>>, seq<V>) -> V, free: string -> V, j: nat, name: string)
    requires j <= |lets| && forall k :: 0 <= k < j ==> lets[k].name != name
    ensures Bound(x, lets, 0, sem, free, name) == Bound(x, lets, j, sem, free, name)
  {
    hide Lex, Find, Meaning;
    FindLater(lets, 0, j, name);
  }

  lemma BoundHere<V>(x: Chars, lets: seq<Let>, sem: (seq<Option<Token>>, seq<V>) -> V, free: string -> V, later: string -> V, j: nat)
    requires DistinctNames(lets) && j < |lets| && later == (n => Bound(x, lets, j + 1, sem, free, n))
    ensures Bound(x, lets, 0, sem, free, lets[j].name) == Meaning(ValueTree(x, lets[j]), later, sem)
  {
    hide Lex, Meaning;
    FindLater(lets, 0, j, lets[j].name);
  }

  lemma BindsAt<V>(x: Chars, lets: seq<Let>, sem: (seq<Option<Token>>, seq<V>) -> V, free: string -> V, env: string -> V, j: nat)
    requires DistinctNames(lets) && Forward(x, lets) && Balanced(x, lets) && j < |lets|
    requires forall name :: env(name) == Bound(x, lets, 0, sem, free, name)
    ensures env(lets[j].name) == Meaning(ValueTree(x, lets[j]), env, sem)
  {
    hide Bound, Meaning, Flatten, Find, Lex, ValueTree, DistinctNames, Balanced;
    var later := n => Bound(x, lets, j + 1, sem, free, n);
    var ps := ValueTree(x, lets[j]);
    BoundHere(x, lets, sem, free, later, j);
    ValueTreeReads(x, lets, j);
    LaterAgrees(x, lets, sem, free, env, later, j);
    assert forall k :: 0 <= k <= j ==> Var(lets[k].name) !in Flatten(ps);
    hide Forward;
    SameMeaning(ps, env, later, sem);
  }

  lemma LaterAgrees<V>(x: Chars, lets: seq<Let>, sem: (seq<Option<Token>>, seq<V>) -> V, free: string -> V, env: string -> V,
                       later: string -> V, j: nat)
    requires j < |lets| && later == (n => Bound(x, lets, j + 1, sem, free, n))
    requires forall name :: env(name) == Bound(x, lets, 0, sem, free, name)
    ensures forall name :: (forall k :: 0 <= k <= j ==> lets[k].name != name) ==> env(name) == later(name)
  {
    hide Bound, Meaning, Find;
    forall name | forall k :: 0 <= k <= j ==> lets[k].name != name ensures env(name) == later(name) {
      BoundAgrees(x, lets, sem, free, j + 1, name);
    }
  }

  lemma SameMeaning<V>(ps: seq<Piece>, env: string -> V, other: string -> V, sem: (seq<Option<Token>>, seq<V>) -> V)
    requires forall name :: Var(name) in Flatten(ps) ==> env(name) == other(name)
    ensures Meaning(ps, env, sem) == Meaning(ps, other, sem)
  {
    MeaningAgrees(ps, env, other, sem);
  }

  /** When no value looks back, each variable has a value: the bindings of the requirement above exist. */
  lemma BindingsExist<V(!new)>(x: Chars, lets: seq<Let>, sem: (seq<Option<Token>>, seq<V>) -> V, free: string -> V)
    requires DistinctNames(lets) && Forward(x, lets) && Balanced(x, lets)
    ensures exists env: string -> V :: Binds(x, lets, env, sem)
                                       && forall name :: Find(lets, 0, name).None? ==> env(name) == free(name)
  {
    var env := n => Bound(x, lets, 0, sem, free, n);
    hide Lex, Meaning, ValueTree;
    assert forall name :: Find(lets, 0, name).None? ==> env(name) == free(name);
    hide Bound;
    forall j | 0 <= j < |lets| ensures env(lets[j].name) == Meaning(ValueTree(x, lets[j]), env, sem) {
      BindsAt(x, lets, sem, free, env, j);
    }
    assert Binds(x, lets, env, sem);
  }

  // ---------- What the conditions shut out ----------

  const ASCII: Chars := Chars(c => 'a' <= c <= 'z', c => 'a' <= c <= 'z' || c == '-')

  /** A name at the start of a text, for these characters. */
  lemma ReplacesHere(name: string, rest: string, value: string)
    requires IsName(ASCII, name) && ASCII.word(Last(name)) && (rest == "" || !ASCII.word(rest[0]))
    ensures Sub(ASCII, "$" + name + rest, name, value) == "(" + value + ")" + Sub(ASCII, rest, name, value)
  {
    var s := "$" + name + rest;
    assert "$" + name <= s && s[1 + |name|..] == rest;
    assert s[|name|] == Last(name);
  }

  /** A binding that uses an earlier one leaves that variable unbound. */
  lemma EarlierBindingIsLeft()
    ensures SubFrom(ASCII, "$tax", [Let("rate", "5"), Let("tax", "$rate * 2")], 0) == "($rate * 2)"
  {
    assert "$" + "tax" + "" == "$tax";
    SubAtVar(ASCII, "tax", "", "rate", "5");
    ReplacesHere("tax", "", "$rate * 2");
    SubOfPlain(ASCII, "", "rate", "5");
    SubOfPlain(ASCII, "", "tax", "$rate * 2");
    hide Sub, IsName;
    assert "(" + "$rate * 2" + ")" + "" == "($rate * 2)";
    InTurn(ASCII, "$tax", Let("rate", "5"), Let("tax", "$rate * 2"));
  }

  /** A reference in a string literal is not one, and is rewritten all the same. */
  lemma LiteralIsRewritten()
    ensures Lex(ASCII, "'$rate'") == [Quoted("'$rate'")]
    ensures SubFrom(ASCII, "'$rate'", [Let("rate", "5")], 0) == "'(5)'"
  {
    hide Lex, Sub, IsName;
    RateTexts();
    LiteralReads(ASCII, "$rate");
    RateIsName();
    QuotedReference("rate", "5");
    InOne(ASCII, "'$rate'", Let("rate", "5"));
  }

  lemma RateTexts()
    ensures "'" + "$rate" + "'" == "'$rate'" && "'" + ("$" + "rate" + "'") == "'$rate'"
    ensures "'" + ("(" + "5" + ")" + "'") == "'(5)'"
  {
  }

  lemma RateIsName()
    ensures IsName(ASCII, "rate") && ASCII.word(Last("rate"))
  {
  }

  lemma QuotedReference(name: string, value: string)
    requires IsName(ASCII, name) && ASCII.word(Last(name))
    ensures Sub(ASCII, "'" + ("$" + name + "'"), name, value) == "'" + ("(" + value + ")" + "'")
  {
    hide Sub;
    SubKeepsPlain(ASCII, "'", "$" + name + "'", name, value);
    ReplacesHere(name, "'", value);
    SubOfPlain(ASCII, "'", name, value);
  }

  lemma InOne(x: Chars, s: string, l: Let)
    ensures SubFrom(x, s, [l], 0) == Sub(x, s, l.name, l.value)
  {
    hide Sub;
    assert SubFrom(x, s, [l], 0) == SubFrom(x, Sub(x, s, l.name, l.value), [l], 1);
  }

  lemma SubOfPlain(x: Chars, a: string, name: string, value: string)
    requires forall i :: 0 <= i < |a| ==> a[i] != '$'
    ensures Sub(x, a, name, value) == a
  {
    SubKeepsPlain(x, a, "", name, value);
    assert a + "" == a && Sub(x, "", name, value) == "";
  }

  lemma LiteralReads(x: Chars, a: string)
    requires forall i :: 0 <= i < |a| ==> a[i] != '\''
    ensures Lex(x, "'" + a + "'") == [Quoted("'" + a + "'")]
  {
    var s := "'" + a + "'";
    QuoteEndOfPlain(a, "");
    assert s[1..] == a + ("'" + "") && s[..|a| + 2] == s && s[|a| + 2..] == "";
    assert [Quoted(s)] + [] == [Quoted(s)] && Lex(x, "") == [];
  }

  lemma {:induction false} QuoteEndOfPlain(a: string, rest: string)
    requires forall i :: 0 <= i < |a| ==> a[i] != '\''
    ensures QuoteEnd('\'', a + ("'" + rest)) == Some(|a| + 1)
  {
    var s := a + ("'" + rest);
    if a == "" {
      assert s[0] == '\'';
    } else {
      assert s[1..] == a[1..] + ("'" + rest);
      QuoteEndOfPlain(a[1..], rest);
    }
  }

  /** A name that goes on past an earlier binding's at a '-' is torn. */
  lemma LongerNameIsTorn()
    ensures Torn(ASCII, "tax-rate", "tax")
    ensures SubFrom(ASCII, "$tax-rate", [Let("tax", "5"), Let("tax-rate", "7")], 0) == "(5)-rate"
  {
    hide Sub, IsName;
    TaxTexts();
    ReplacesHere("tax", "-rate", "5");
    SubOfPlain(ASCII, "-rate", "tax", "5");
    SubOfPlain(ASCII, "(5)-rate", "tax-rate", "7");
    InTurn(ASCII, "$tax-rate", Let("tax", "5"), Let("tax-rate", "7"));
  }

  lemma TaxTexts()
    ensures "$" + "tax" + "-rate" == "$tax-rate" && "(" + "5" + ")" + "-rate" == "(5)-rate" && "tax" + "-rate" == "tax-rate"
    ensures IsName(ASCII, "tax") && ASCII.word(Last("tax")) && !ASCII.word("-rate"[0])
  {
  }

  /** With the longer name first, both are replaced. */
  lemma LongerNameFirst()
    ensures SubFrom(ASCII, "$tax-rate", [Let("tax-rate", "7"), Let("tax", "5")], 0) == "(7)"
  {
    assert "$" + "tax-rate" + "" == "$tax-rate";
    ReplacesHere("tax-rate", "", "7");
    hide Sub, IsName;
    SubOfPlain(ASCII, "", "tax-rate", "7");
    assert "(" + "7" + ")" + "" == "(7)";
    SubOfPlain(ASCII, "(7)", "tax", "5");
    InTurn(ASCII, "$tax-rate", Let("tax-rate", "7"), Let("tax", "5"));
  }

  lemma InTurn(x: Chars, s: string, a: Let, b: Let)
    ensures SubFrom(x, s, [a, b], 0) == Sub(x, Sub(x, s, a.name, a.value), b.name, b.value)
  {
    hide Sub;
    var s1 := Sub(x, s, a.name, a.value);
    assert SubFrom(x, s, [a, b], 0) == SubFrom(x, s1, [a, b], 1);
    assert SubFrom(x, s1, [a, b], 1) == SubFrom(x, Sub(x, s1, b.name, b.value), [a, b], 2);
  }

  /** A value whose parentheses match only across its ends is not one group in the text returned. */
  lemma UnbalancedValueRegroups()
    ensures var value := [Raw('1'), Close, Raw('+'), Open, Raw('2')];
            && Read(value) == None
            && Read(Replace([Var("a")], "a", Block(value)))
               == Some([Group([Text(Raw('1'))]), Text(Raw('+')), Group([Text(Raw('2'))])])
  {
    var value := [Raw('1'), Close, Raw('+'), Open, Raw('2')];
    hide Read;
    ReplaceOne(Var("a"), "a", Block(value));
    ReadsNothing(value);
    assert Block(value) == [Open, Raw('1'), Close, Raw('+'), Open, Raw('2'), Close];
    TwoGroupsRead(Raw('1'), Raw('+'), Raw('2'));
  }

  lemma TwoGroupsRead(a: Token, b: Token, c: Token)
    requires a.Raw? && b.Raw? && c.Raw?
    ensures Read([Open, a, Close, b, Open, c, Close]) == Some([Group([Text(a)]), Text(b), Group([Text(c)])])
  {
    var ps := [Group([Text(a)]), Text(b), Group([Text(c)])];
    assert Flatten([]) == [] && Tidy([]);
    GroupOfOne(a);
    GroupOfOne(c);
    hide Flatten, Tidy, Read;
    FlattenCons(ps[2], []);
    TidyCons(ps[2], []);
    FlattenCons(ps[1], [ps[2]] + []);
    TidyCons(ps[1], [ps[2]] + []);
    FlattenCons(ps[0], [ps[1]] + ([ps[2]] + []));
    TidyCons(ps[0], [ps[1]] + ([ps[2]] + []));
    assert ps == [ps[0]] + ([ps[1]] + ([ps[2]] + []));
    assert Flatten(ps) == [Open, a, Close, b, Open, c, Close];
    ReadBack(ps, Flatten(ps));
  }

  lemma GroupOfOne(t: Token)
    ensures Flatten([Text(t)]) == [t]
    ensures !t.Var? && !t.Open? && !t.Close? ==> Tidy([Text(t)])
  {
    assert [Text(t)][1..] == [];
  }

  lemma ReadsNothing(ts: seq<Token>)
    requires |ts| > 1 && ts[0].Raw? && ts[1].Close?
    ensures Read(ts) == None
  {
    assert ReadPieces(ts[1..]) == Some(Pieces([], ts[1..]));
  }
}
