/**
 * The finding message and the redaction backstop of apps/validator/src/validator/redaction.py: which
 * assembled texts `assert_redacted` lets through.
 */
module Redaction {
  import opened Base
  import opened Decimal
  import opened Shapes

  // ---------- The three patterns ----------

  datatype Pattern = Trn | Iban | Email

  predicate IsIbanChar(c: char) { IsUpper(c) || IsDigit(c) }

  predicate IsLocalChar(u: Unicode, c: char) { u.reWord(c) || c == '.' || c == '+' || c == '-' }

  predicate IsHostChar(u: Unicode, c: char) { u.reWord(c) || c == '-' }

  predicate IsDomainChar(u: Unicode, c: char) { u.reWord(c) || c == '.' }

  /** `[\w.+-]+@[\w-]+\.[\w.]+` with the `@` at `at` and the separating point at `dot`. */
  predicate EmailAt(u: Unicode, t: string, at: int, dot: int) {
    && 0 < at && at + 1 < dot && dot + 1 < |t|
    && t[at] == '@' && t[dot] == '.'
    && All(t[..at], c => IsLocalChar(u, c))
    && All(t[at + 1..dot], c => IsHostChar(u, c))
    && All(t[dot + 1..], c => IsDomainChar(u, c))
  }

  /** The text `t`, taken alone, is in the language of the pattern without its word boundaries. */
  ghost predicate InLanguage(u: Unicode, p: Pattern, t: string) {
    match p
    case Trn => |t| == 15 && All(t, u.reDigit)
    case Iban =>
      && 15 <= |t| <= 34
      && All(t[..2], IsUpper) && All(t[2..4], u.reDigit) && All(t[4..], IsIbanChar)
    case Email => exists at, dot :: EmailAt(u, t, at, dot)
  }

  predicate WordAt(u: Unicode, s: string, i: int) {
    0 <= i < |s| && u.reWord(s[i])
  }

  /** `\b` at position i. */
  predicate Boundary(u: Unicode, s: string, i: int) {
    WordAt(u, s, i - 1) != WordAt(u, s, i)
  }

  ghost predicate MatchAt(u: Unicode, p: Pattern, s: string, i: int, j: int) {
    && 0 <= i <= j <= |s|
    && InLanguage(u, p, s[i..j])
    && (p.Iban? || (Boundary(u, s, i) && Boundary(u, s, j)))
  }

  /** `pattern.search(s)` finds something for one of the patterns. */
  ghost predicate Hit(u: Unicode, s: string) {
    exists p, i, j :: MatchAt(u, p, s, i, j)
  }

  // ---------- No match crosses a seam ----------

  /** A character no pattern can match: ASCII, not a word character, and none of `. + - @`. */
  predicate IsSeam(c: char) {
    IsAscii(c) && !IsAlnum(c) && c !in "_.+-@"
  }

  lemma MatchedTextHasNoSeam(u: Unicode, p: Pattern, t: string, k: int)
    requires Sound(u) && InLanguage(u, p, t) && 0 <= k < |t|
    ensures !IsSeam(t[k])
  {
    match p
    case Trn =>
    case Iban =>
      if k < 2 { assert t[..2][k] == t[k]; }
      else if k < 4 { assert t[2..4][k - 2] == t[k]; }
      else { assert t[4..][k - 4] == t[k]; }
    case Email =>
      var at, dot :| EmailAt(u, t, at, dot);
      if k < at { assert t[..at][k] == t[k]; }
      else if at < k < dot { assert t[at + 1..dot][k - at - 1] == t[k]; }
      else if dot < k { assert t[dot + 1..][k - dot - 1] == t[k]; }
  }

  lemma MatchBefore(u: Unicode, p: Pattern, a: string, c: char, b: string, i: int, j: int)
    requires Sound(u) && IsSeam(c) && 0 <= i <= j <= |a|
    ensures MatchAt(u, p, a + [c] + b, i, j) <==> MatchAt(u, p, a, i, j)
  {
    var s := a + [c] + b;
    assert s[i..j] == a[i..j];
    assert forall k :: k < |a| ==> WordAt(u, s, k) == WordAt(u, a, k);
    assert !WordAt(u, s, |a|);
  }

  lemma MatchBehind(u: Unicode, p: Pattern, a: string, c: char, b: string, i: int, j: int)
    requires Sound(u) && IsSeam(c) && 0 <= i <= j <= |b|
    ensures MatchAt(u, p, a + [c] + b, |a| + 1 + i, |a| + 1 + j) <==> MatchAt(u, p, b, i, j)
  {
    var s := a + [c] + b;
    var n := |a| + 1;
    assert s[n + i..n + j] == b[i..j];
    assert forall k :: 0 <= k ==> WordAt(u, s, n + k) == WordAt(u, b, k);
    assert !WordAt(u, s, |a|) && !WordAt(u, b, -1);
  }

  lemma LanguageNonEmpty(u: Unicode, p: Pattern)
    ensures !InLanguage(u, p, "")
  {
  }

  /** A text cut at a seam has a match exactly when one of the two pieces has. */
  lemma NoMatchCrossesASeam(u: Unicode, a: string, c: char, b: string)
    requires Sound(u) && IsSeam(c)
    ensures Hit(u, a + [c] + b) <==> Hit(u, a) || Hit(u, b)
  {
    hide MatchAt, InLanguage;
    var s := a + [c] + b;
    if Hit(u, s) {
      var p, i, j :| MatchAt(u, p, s, i, j);
      MatchSide(u, p, a, c, b, i, j);
    }
    if Hit(u, a) {
      var p, i, j :| MatchAt(u, p, a, i, j);
      MatchRange(u, p, a, i, j);
      MatchBefore(u, p, a, c, b, i, j);
    }
    if Hit(u, b) {
      var p, i, j :| MatchAt(u, p, b, i, j);
      MatchRange(u, p, b, i, j);
      MatchBehind(u, p, a, c, b, i, j);
    }
  }

  lemma MatchRange(u: Unicode, p: Pattern, s: string, i: int, j: int)
    requires MatchAt(u, p, s, i, j)
    ensures 0 <= i < j <= |s|
  {
    LanguageNonEmpty(u, p);
    assert s[i..i] == "";
  }

  lemma MatchSide(u: Unicode, p: Pattern, a: string, c: char, b: string, i: int, j: int)
    requires Sound(u) && IsSeam(c) && MatchAt(u, p, a + [c] + b, i, j)
    ensures Hit(u, a) || Hit(u, b)
  {
    var s := a + [c] + b;
    MatchRange(u, p, s, i, j);
    if i <= |a| < j {
      assert s[i..j][|a| - i] == c;
      MatchedTextHasNoSeam(u, p, s[i..j], |a| - i);
      assert false;
    } else if j <= |a| {
      MatchBefore(u, p, a, c, b, i, j);
    } else {
      MatchBehind(u, p, a, c, b, i - |a| - 1, j - |a| - 1);
    }
  }

  // ---------- Text with no room for a match ----------

  /** One of the fifteen characters from position i on is a seam. */
  predicate SeamNear(s: string, i: int)
    requires 0 <= i <= |s| - 15
  {
    exists k :: i <= k < i + 15 && IsSeam(s[k])
  }

  /** No `@`, and no fifteen characters in a row without a seam. */
  predicate Bland(s: string) {
    '@' !in s && forall i :: 0 <= i <= |s| - 15 ==> SeamNear(s, i)
  }

  lemma BlandHasNoMatch(u: Unicode, s: string)
    requires Sound(u) && Bland(s)
    ensures !Hit(u, s)
  {
    if Hit(u, s) {
      var p, i, j :| MatchAt(u, p, s, i, j);
      var t := s[i..j];
      assert forall k :: 0 <= k < |t| ==> t[k] in s;
      if !p.Email? {
        assert SeamNear(s, i);
        var k :| i <= k < i + 15 && IsSeam(s[k]);
        assert t[k - i] == s[k];
        MatchedTextHasNoSeam(u, p, t, k - i);
      }
      assert false;
    }
  }

  predicate SeamBetween(a: string, b: string) {
    || a == "" || b == "" || IsSeam(a[|a| - 1]) || IsSeam(b[0])
  }

  lemma BlandJoin(a: string, b: string)
    requires Bland(a) && Bland(b) && SeamBetween(a, b)
    ensures Bland(a + b)
  {
    var s := a + b;
    forall i | 0 <= i <= |s| - 15 ensures SeamNear(s, i) {
      if i + 15 <= |a| {
        assert SeamNear(a, i);
        var k :| i <= k < i + 15 && IsSeam(a[k]);
        assert s[k] == a[k];
      } else if |a| <= i {
        assert SeamNear(b, i - |a|);
        var k :| i - |a| <= k < i - |a| + 15 && IsSeam(b[k]);
        assert s[k + |a|] == b[k];
      } else if IsSeam(a[|a| - 1]) {
        assert s[|a| - 1] == a[|a| - 1];
      } else {
        assert s[|a|] == b[0];
      }
    }
  }

  lemma ShortIsBland(s: string)
    requires |s| < 15 && '@' !in s
    ensures Bland(s)
  {
  }

  lemma NumeralIsBland(n: nat)
    requires n < Pow10(14)
    ensures Bland(Numeral(n))
  {
    NumeralLength(n, 14);
    assert '@' !in Numeral(n);
    ShortIsBland(Numeral(n));
  }

  // ---------- The assembled text ----------

  function HexDigit(n: nat): char
    requires n < 16
  {
    "0123456789abcdef"[n]
  }

  /** One character of a JSON string. */
  function JsonChar(c: char): string {
    if c == '"' then "\\\""
    else if c == '\\' then "\\\\"
    else if c == '\U{0008}' then "\\b"
    else if c == '\t' then "\\t"
    else if c == '\n' then "\\n"
    else if c == '\U{000C}' then "\\f"
    else if c == '\r' then "\\r"
    else if c < ' ' then "\\u00" + [HexDigit(c as int / 16), HexDigit(c as int % 16)]
    else [c]
  }

  function JsonEscape(s: string): string {
    if s == "" then "" else JsonEscape(s[..|s| - 1]) + JsonChar(s[|s| - 1])
  }

  function JsonText(o: Option<string>): string {
    if o.None? then "null" else "\"" + JsonEscape(o.value) + "\""
  }

  /** `model_dump_json` of a shape. */
  function ShapeJson(shape: ValueShape): string {
    ShapeFront(shape) + JsonText(shape.expected) + "}"
  }

  function ShapeFront(shape: ValueShape): string {
    "{\"len\":" + (if shape.len.None? then "null" else Numeral(shape.len.value))
    + ",\"charset\":" + JsonText(if shape.charset.None? then None else Some(CharsetText(shape.charset.value)))
    + ",\"regex_class\":" + JsonText(shape.regexClass)
    + ",\"expected\":"
  }

  function DescribeShape(shape: ValueShape): string {
    if shape.len.None? && shape.charset.None? then "nothing"
    else if shape.charset == Some(Empty) || shape.len == Some(0) then "empty"
    else if shape.len.None? then "a " + CharsetText(shape.charset.value) + " value"
    else if shape.charset.None? then Numeral(shape.len.value) + " characters"
    else Numeral(shape.len.value) + " characters (" + CharsetText(shape.charset.value) + ")"
  }

  function MessageText(description: string, shape: ValueShape): string {
    "Expected " + description + "; received " + DescribeShape(shape) + "."
  }

  /** `assert_redacted` on a message and a shape: the text it searches. */
  function Probe(message: Option<string>, shape: Option<ValueShape>): string {
    (if message.None? then "" else message.value) + (if shape.None? then "" else ShapeJson(shape.value))
  }

  datatype RedactionError = RedactionFailure

  ghost function BuildMessage(u: Unicode, description: string, shape: ValueShape): Result<string, RedactionError> {
    var message := MessageText(description, shape);
    if Hit(u, Probe(Some(message), Some(shape))) then Err(RedactionFailure) else Ok(message)
  }

  // ---------- When the backstop can fire ----------

  lemma {:induction false} EscapeConcat(a: string, b: string)
    ensures JsonEscape(a + b) == JsonEscape(a) + JsonEscape(b)
  {
    hide JsonChar;
    if b == "" {
      assert a + b == a;
    } else {
      var front, last := b[..|b| - 1], JsonChar(b[|b| - 1]);
      EscapeConcat(a, front);
      assert (a + b)[..|a + b| - 1] == a + front;
      assert (JsonEscape(a) + JsonEscape(front)) + last == JsonEscape(a) + (JsonEscape(front) + last);
    }
  }

  predicate IsPlain(s: string) {
    forall i :: 0 <= i < |s| ==> s[i] >= ' ' && s[i] != '"' && s[i] != '\\'
  }

  lemma {:induction false} EscapePlain(s: string)
    requires IsPlain(s)
    ensures JsonEscape(s) == s
  {
    if s != "" {
      var front, last := s[..|s| - 1], s[|s| - 1];
      EscapePlain(front);
      assert JsonChar(last) == [last];
      hide JsonChar;
      assert s == front + [last];
    }
  }

  /** Every bracketed class text is bland, starts with a seam and stays so when it is escaped. */
  lemma ClassIsBland(c: Class)
    ensures var e := JsonEscape(ClassText(c)); Bland(e) && |e| > 0 && IsSeam(e[0]) && IsSeam(e[|e| - 1])
  {
    hide Bland, JsonEscape;
    if c == Blank {
      EscapeBlank();
      ShortIsBland("[\\\\s]");
    } else {
      EscapePlain(ClassText(c));
      ShortIsBland(ClassText(c));
    }
  }

  lemma EscapeBlank()
    ensures JsonEscape("[\\s]") == "[\\\\s]"
  {
    assert "[\\s]" == ("[" + "\\") + "s]";
    EscapeConcat("[" + "\\", "s]");
    EscapeConcat("[", "\\");
    EscapePlain("[");
    EscapePlain("s]");
    EscapeBackslash();
  }

  lemma EscapeBackslash()
    ensures JsonEscape("\\") == "\\\\"
  {
    assert "\\"[..0] == "";
    assert JsonEscape("") == "";
  }

  lemma CountIsBland(n: nat)
    requires n < Pow10(14)
    ensures Bland("{" + Numeral(n) + "}") && JsonEscape("{" + Numeral(n) + "}") == "{" + Numeral(n) + "}"
  {
    hide Numeral, JsonEscape, Bland, Pow10, Value;
    NumeralIsBland(n);
    ShortIsBland("{");
    ShortIsBland("}");
    BlandJoin("{", Numeral(n));
    BlandJoin("{" + Numeral(n), "}");
    EscapePlain("{" + Numeral(n) + "}");
  }

  lemma RunIsBland(r: Run)
    requires r.count < Pow10(14)
    ensures var e := JsonEscape(PrintRun(r)); Bland(e) && |e| > 0 && IsSeam(e[0])
  {
    hide Bland, JsonEscape, ClassText, Numeral;
    var count := "{" + Numeral(r.count) + "}";
    assert PrintRun(r) == ClassText(r.cls) + count;
    EscapeConcat(ClassText(r.cls), count);
    ClassIsBland(r.cls);
    CountIsBland(r.count);
    BlandJoin(JsonEscape(ClassText(r.cls)), count);
  }

  lemma {:induction false} SignatureIsBland(runs: seq<Run>)
    requires forall i :: 0 <= i < |runs| ==> runs[i].count < Pow10(14)
    ensures Bland(JsonEscape(Print(runs)))
  {
    if runs == [] {
      assert Print(runs) == "" && JsonEscape("") == "";
      ShortIsBland("");
    } else {
      hide Bland, JsonEscape, PrintRun, IsSeam, Pow10;
      var front, last := runs[..|runs| - 1], runs[|runs| - 1];
      SignatureIsBland(front);
      RunIsBland(last);
      EscapeConcat(Print(front), PrintRun(last));
      BlandJoin(JsonEscape(Print(front)), JsonEscape(PrintRun(last)));
    }
  }

  lemma CollapsedIsBland(n: nat)
    requires n < Pow10(14)
    ensures Bland(JsonEscape(Collapsed(n)))
  {
    hide Bland, Numeral, Pow10, JsonEscape;
    var count := "{" + Numeral(n) + "}";
    assert Collapsed(n) == "[\\s\\S]" + count;
    EscapeConcat("[\\s\\S]", count);
    CountIsBland(n);
    EscapeCollapsedHead();
    ShortIsBland("[\\\\s\\\\S]");
    BlandJoin("[\\\\s\\\\S]", count);
  }

  lemma EscapeCollapsedHead()
    ensures JsonEscape("[\\s\\S]") == "[\\\\s\\\\S]"
  {
    hide JsonEscape;
    assert "[\\s\\S]" == "[" + ("\\" + ("s" + ("\\" + "S]")));
    EscapeConcat("[", "\\" + ("s" + ("\\" + "S]")));
    EscapeConcat("\\", "s" + ("\\" + "S]"));
    EscapeConcat("s", "\\" + "S]");
    EscapeConcat("\\", "S]");
    EscapePlain("[");
    EscapePlain("s");
    EscapePlain("S]");
    EscapeBackslash();
  }

  /** Every run of a value is no longer than the value. */
  lemma {:induction false} CountBound(runs: seq<Run>, i: nat)
    requires i < |runs|
    ensures runs[i].count <= |Expand(runs)|
  {
    if i < |runs| - 1 {
      CountBound(runs[..|runs| - 1], i);
    }
  }

  lemma DerivedSignatureIsBland(classes: seq<Class>, limit: nat)
    requires classes != [] && |classes| < Pow10(14)
    ensures Bland(JsonEscape(Signature(classes, limit).value))
  {
    hide Bland, JsonEscape, Pow10;
    RunsMatch(classes);
    var runs := Runs(classes);
    forall i | 0 <= i < |runs| ensures runs[i].count < Pow10(14) {
      CountBound(runs, i);
    }
    SignatureIsBland(runs);
    CollapsedIsBland(|classes|);
  }

  lemma CharsetTextIsBland(c: Charset)
    ensures Bland(CharsetText(c)) && IsPlain(CharsetText(c))
  {
    ShortIsBland(CharsetText(c));
  }

  lemma DescriptionIsBland(shape: ValueShape)
    requires shape.len.Some? ==> shape.len.value < Pow10(14)
    ensures Bland(DescribeShape(shape) + ".")
  {
    hide Bland, Numeral, Pow10, CharsetText;
    var d := DescribeShape(shape);
    if shape.charset.Some? { CharsetTextIsBland(shape.charset.value); }
    if shape.len.Some? { NumeralIsBland(shape.len.value); }
    if d == "nothing" || d == "empty" {
      ShortIsBland(d + ".");
    } else if shape.len.None? {
      var cs := CharsetText(shape.charset.value);
      assert d + "." == ("a " + cs) + " value.";
      ShortIsBland("a ");
      ShortIsBland(" value.");
      BlandJoin("a ", cs);
      BlandJoin("a " + cs, " value.");
    } else if shape.charset.None? {
      assert d + "." == Numeral(shape.len.value) + " characters.";
      ShortIsBland(" characters.");
      BlandJoin(Numeral(shape.len.value), " characters.");
    } else {
      var n, cs := Numeral(shape.len.value), CharsetText(shape.charset.value);
      assert d + "." == ((n + " characters (") + cs) + ").";
      ShortIsBland(" characters (");
      ShortIsBland(").");
      BlandJoin(n, " characters (");
      BlandJoin(n + " characters (", cs);
      BlandJoin((n + " characters (") + cs, ").");
    }
  }

  lemma JsonTextIsBland(o: Option<string>)
    requires o.Some? ==> Bland(JsonEscape(o.value))
    ensures Bland(JsonText(o))
  {
    hide Bland, JsonEscape;
    ShortIsBland("null");
    if o.Some? {
      ShortIsBland("\"");
      BlandJoin("\"", JsonEscape(o.value));
      BlandJoin("\"" + JsonEscape(o.value), "\"");
    }
  }

  lemma FrontIsBland(shape: ValueShape)
    requires shape.len.Some? ==> shape.len.value < Pow10(14)
    requires shape.regexClass.Some? ==> Bland(JsonEscape(shape.regexClass.value))
    ensures Bland(ShapeFront(shape)) && ShapeFront(shape)[0] == '{'
  {
    hide Bland, Numeral, Pow10, CharsetText, JsonText, JsonEscape;
    var len := if shape.len.None? then "null" else Numeral(shape.len.value);
    ShortIsBland("null");
    if shape.len.Some? { NumeralIsBland(shape.len.value); }
    var charset := JsonText(if shape.charset.None? then None else Some(CharsetText(shape.charset.value)));
    if shape.charset.Some? {
      CharsetTextIsBland(shape.charset.value);
      EscapePlain(CharsetText(shape.charset.value));
    }
    JsonTextIsBland(if shape.charset.None? then None else Some(CharsetText(shape.charset.value)));
    JsonTextIsBland(shape.regexClass);
    var regex := JsonText(shape.regexClass);
    ShortIsBland("{\"len\":");
    ShortIsBland(",\"charset\":");
    LiteralIsBland();
    ShortIsBland(",\"expected\":");
    var a := "{\"len\":" + len;
    BlandJoin("{\"len\":", len);
    var b := a + ",\"charset\":";
    BlandJoin(a, ",\"charset\":");
    BlandJoin(b, charset);
    var c := (b + charset) + ",\"regex_class\":";
    BlandJoin(b + charset, ",\"regex_class\":");
    BlandJoin(c, regex);
    BlandJoin(c + regex, ",\"expected\":");
    assert ShapeFront(shape) == (c + regex) + ",\"expected\":";
  }

  lemma LiteralIsBland()
    ensures Bland(",\"regex_class\":")
  {
    var s := ",\"regex_class\":";
    assert IsSeam(s[1]);
    assert SeamNear(s, 0);
  }

  /** The part of the probe between the rule's description and its expected pattern. */
  function Middle(shape: ValueShape): string {
    " received " + ((DescribeShape(shape) + ".") + ShapeFront(shape))
  }

  lemma MiddleIsBland(shape: ValueShape)
    requires shape.len.Some? ==> shape.len.value < Pow10(14)
    requires shape.regexClass.Some? ==> Bland(JsonEscape(shape.regexClass.value))
    ensures Bland(Middle(shape))
  {
    hide Bland, Pow10, DescribeShape, ShapeFront, JsonEscape;
    DescriptionIsBland(shape);
    FrontIsBland(shape);
    BlandJoin(DescribeShape(shape) + ".", ShapeFront(shape));
    ShortIsBland(" received ");
    BlandJoin(" received ", (DescribeShape(shape) + ".") + ShapeFront(shape));
  }

  /** The probe, cut at its seams. */
  function Rest(shape: ValueShape): string {
    if shape.expected.None? then Middle(shape) + "null}"
    else Middle(shape) + ['"'] + (JsonEscape(shape.expected.value) + ['"'] + "}")
  }

  lemma ProbeParts(description: string, shape: ValueShape)
    ensures Probe(Some(MessageText(description, shape)), Some(shape))
            == "Expected" + [' '] + (description + [';'] + Rest(shape))
  {
    hide DescribeShape, ShapeFront, JsonEscape;
    var d, f, j := DescribeShape(shape), ShapeFront(shape), JsonText(shape.expected);
    ProbeConcat(description, d, f, j);
    if shape.expected.None? {
      assert j + "}" == "null}";
    } else {
      var e := JsonEscape(shape.expected.value);
      assert j + "}" == ['"'] + (e + ['"'] + "}");
      Assoc(Middle(shape), ['"'], e + ['"'] + "}");
    }
  }

  lemma ProbeConcat(description: string, d: string, f: string, j: string)
    ensures ("Expected " + description + "; received " + d + ".") + (f + j + "}")
            == "Expected" + [' '] + (description + [';'] + ((" received " + ((d + ".") + f)) + (j + "}")))
  {
    var m := d + ".";
    assert "Expected " == "Expected" + [' '] && "; received " == [';'] + " received ";
    Assoc("Expected " + description + "; received ", d, ".");
    Assoc("Expected " + description, [';'] + " received ", m);
    Assoc([';'], " received ", m);
    var left := [';'] + (" received " + m);
    Assoc("Expected ", description, left);
    assert f + j + "}" == f + (j + "}");
    Assoc("Expected ", description + left, f + (j + "}"));
    Assoc(description, left, f + (j + "}"));
    Assoc([';'], " received " + m, f + (j + "}"));
    Assoc(" received " + m, f, j + "}");
    Assoc(" received ", m, f);
    Assoc(description, [';'], (" received " + (m + f)) + (j + "}"));
  }

  /**
   * For a shape with fewer than 10^14 characters and a bland signature, the backstop fires exactly when
   * the rule's own description or its own escaped pattern already contains a match.
   */
  lemma ProbeHitsExactly(u: Unicode, description: string, shape: ValueShape)
    requires Sound(u)
    requires shape.len.Some? ==> shape.len.value < Pow10(14)
    requires shape.regexClass.Some? ==> Bland(JsonEscape(shape.regexClass.value))
    ensures Hit(u, Probe(Some(MessageText(description, shape)), Some(shape)))
            <==> Hit(u, description) || (shape.expected.Some? && Hit(u, JsonEscape(shape.expected.value)))
  {
    hide Hit, Bland, Middle, JsonEscape, Sound, Pow10, Probe;
    ProbeParts(description, shape);
    ShortIsBland("Expected");
    BlandHasNoMatch(u, "Expected");
    NoMatchCrossesASeam(u, "Expected", ' ', description + [';'] + Rest(shape));
    NoMatchCrossesASeam(u, description, ';', Rest(shape));
    MiddleIsBland(shape);
    if shape.expected.None? {
      ShortIsBland("null}");
      MiddleEnds(shape);
      BlandJoin(Middle(shape), "null}");
      BlandHasNoMatch(u, Middle(shape) + "null}");
    } else {
      var e := JsonEscape(shape.expected.value);
      BlandHasNoMatch(u, Middle(shape));
      ShortIsBland("}");
      BlandHasNoMatch(u, "}");
      NoMatchCrossesASeam(u, Middle(shape), '"', e + ['"'] + "}");
      NoMatchCrossesASeam(u, e, '"', "}");
    }
  }

  lemma MiddleEnds(shape: ValueShape)
    ensures |Middle(shape)| > 0 && IsSeam(Middle(shape)[|Middle(shape)| - 1])
  {
    hide DescribeShape, JsonText;
  }

  /**
   * `build_message` on a derived shape raises exactly when the rule's description, or the JSON-escaped
   * pattern the shape still carries, is itself dirty. With both clean it cannot raise, whatever the value.
   */
  lemma BackstopIsUnreachable(u: Unicode, description: string, raw: Option<string>, expected: Option<string>)
    requires Sound(u) && (raw.Some? ==> |raw.value| < Pow10(14))
    ensures var shape := DeriveValueShape(u, raw, expected);
            BuildMessage(u, description, shape).Err?
            <==> Hit(u, description) || (shape.expected.Some? && Hit(u, JsonEscape(shape.expected.value)))
  {
    hide Hit, Bland, JsonEscape, Sound, Pow10, Probe, MessageText, Numeral;
    var shape := DeriveValueShape(u, raw, expected);
    if raw.Some? && raw.value != "" {
      DerivedSignatureIsBland(PyClasses(u, raw.value), PY_MAX_RUNS);
    }
    ProbeHitsExactly(u, description, shape);
  }

  /** The length bound is needed: a value whose length has fifteen digits makes the message itself match. */
  lemma FifteenDigitLengthRaises(u: Unicode, description: string, shape: ValueShape)
    requires Sound(u)
    requires shape.len.Some? && Pow10(14) <= shape.len.value < Pow10(15)
    ensures BuildMessage(u, description, shape).Err?
  {
    hide Numeral, Pow10, ShapeFront, JsonText, JsonEscape;
    var n := Numeral(shape.len.value);
    NumeralLength(shape.len.value, 14);
    NumeralLength(shape.len.value, 15);
    var message := MessageText(description, shape);
    var head := message + "{\"len\"";
    var rest := JsonAfterLength(shape);
    LengthComesFirst(message, shape);
    assert n[0..15] == n;
    assert MatchAt(u, Trn, n, 0, 15);
    NoMatchCrossesASeam(u, n, ',', rest);
    NoMatchCrossesASeam(u, head, ':', n + [','] + rest);
  }

  function JsonAfterLength(shape: ValueShape): string {
    "\"charset\":" + JsonText(if shape.charset.None? then None else Some(CharsetText(shape.charset.value)))
    + ",\"regex_class\":" + JsonText(shape.regexClass) + ",\"expected\":" + JsonText(shape.expected) + "}"
  }

  lemma LengthComesFirst(message: string, shape: ValueShape)
    requires shape.len.Some?
    ensures Probe(Some(message), Some(shape))
            == (message + "{\"len\"") + [':'] + (Numeral(shape.len.value) + [','] + JsonAfterLength(shape))
  {
    hide Numeral, JsonText, CharsetText;
    var n := Numeral(shape.len.value);
    var c := JsonText(if shape.charset.None? then None else Some(CharsetText(shape.charset.value)));
    var r, e := JsonText(shape.regexClass), JsonText(shape.expected);
    assert ShapeJson(shape) == "{\"len\"" + [':'] + (n + [','] + JsonAfterLength(shape)) by {
      assert ",\"charset\":" == [','] + "\"charset\":" && "{\"len\":" == "{\"len\"" + [':'];
      assert ShapeJson(shape) == (((((("{\"len\":" + n) + ",\"charset\":") + c) + ",\"regex_class\":") + r) + ",\"expected\":") + e + "}";
      assert JsonAfterLength(shape) == (((("\"charset\":" + c) + ",\"regex_class\":") + r) + ",\"expected\":") + e + "}";
    }
  }

  // ---------- What a description tells ----------

  lemma NumeralStarts(n: nat)
    ensures Numeral(n) != "" && IsDigit(Numeral(n)[0])
  {
  }

  /** A shape with a length or a charset that is not of an empty value is described as neither. */
  lemma DescribesSomething(shape: ValueShape)
    requires (shape.len.Some? || shape.charset.Some?) && shape.len != Some(0) && shape.charset != Some(Empty)
    ensures DescribeShape(shape) != "nothing" && DescribeShape(shape) != "empty"
  {
    if shape.len.Some? {
      NumeralStarts(shape.len.value);
      assert DescribeShape(shape)[0] == Numeral(shape.len.value)[0];
    } else {
      assert DescribeShape(shape)[0] == 'a';
    }
    assert "nothing"[0] == 'n' && "empty"[0] == 'e';
  }

  /** A finding's message tells an absent value from an empty one, and both from any other. */
  lemma AbsentAndEmptyAreTold(u: Unicode, raw: Option<string>, expected: Option<string>)
    ensures DescribeShape(DeriveValueShape(u, raw, expected)) == "nothing" <==> raw == None
    ensures DescribeShape(DeriveValueShape(u, raw, expected)) == "empty" <==> raw == Some("")
  {
    if raw == None {
      assert DescribeShape(ValueShape(None, None, None, expected)) == "nothing";
    } else if raw == Some("") {
      EmptyIsTold(u, expected);
    } else {
      hide DescribeShape, DeriveValueShape;
      SomethingIsTold(u, raw.value, expected);
    }
  }

  lemma EmptyIsTold(u: Unicode, expected: Option<string>)
    ensures DescribeShape(DeriveValueShape(u, Some(""), expected)) == "empty"
  {
    NumeralStarts(0);
    hide Numeral, Signature, PyClasses;
  }

  lemma SomethingIsTold(u: Unicode, v: string, expected: Option<string>)
    requires v != ""
    ensures DescribeShape(DeriveValueShape(u, Some(v), expected)) != "nothing"
    ensures DescribeShape(DeriveValueShape(u, Some(v), expected)) != "empty"
  {
    NotBothEcho(|v|, PyCharset(u, v), v);
    assert PyCharset(u, v) != Empty;
    hide Numeral, CharsetText, DescribeShape, Signature, PyClasses, PyCharset;
    DescribesSomething(DeriveValueShape(u, Some(v), expected));
  }

  /** A length and a charset are never spelled alike. */
  lemma NotBothEcho(n: nat, c: Charset, v: string)
    ensures Numeral(n) != v || CharsetText(c) != v
  {
    NumeralStarts(n);
  }
}
