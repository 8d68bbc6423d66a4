/**
 * Value shapes: the run-length signature of a value (apps/validator/src/validator/redaction.py and
 * its second implementation apps/web/modules/ingestion/shape.ts).
 */
module Shapes {
  import opened Base
  import opened Decimal
  import JsText

  // ---------- Character classes and runs ----------

  datatype Class = Digit | UpperLetter | LowerLetter | Blank | Other

  function ClassText(c: Class): (s: string)
    ensures |s| > 0
  {
    match c
    case Digit => "[0-9]"
    case UpperLetter => "[A-Z]"
    case LowerLetter => "[a-z]"
    case Blank => "[\\s]"
    case Other => "[^A-Za-z0-9]"
  }

  datatype Run = Run(cls: Class, count: nat)

  /** One more character: it joins the last run of its class or opens a new one. */
  function Extend(runs: seq<Run>, cls: Class): seq<Run> {
    var n := |runs|;
    if n > 0 && runs[n - 1].cls == cls then runs[n - 1 := Run(cls, runs[n - 1].count + 1)]
    else runs + [Run(cls, 1)]
  }

  function Runs(classes: seq<Class>): (runs: seq<Run>)
    ensures |runs| <= |classes|
  {
    if classes == [] then [] else Extend(Runs(classes[..|classes| - 1]), classes[|classes| - 1])
  }

  function PrintRun(r: Run): string {
    ClassText(r.cls) + "{" + Numeral(r.count) + "}"
  }

  function Print(runs: seq<Run>): string {
    if runs == [] then "" else Print(runs[..|runs| - 1]) + PrintRun(runs[|runs| - 1])
  }

  function Collapsed(length: nat): string {
    "[\\s\\S]{" + Numeral(length) + "}"
  }

  /** The signature of a value with these character classes, `limit` being the most runs it may show. */
  function Signature(classes: seq<Class>, limit: nat): Option<string> {
    if classes == [] then None
    else if |Runs(classes)| > limit then Some(Collapsed(|classes|))
    else Some(Print(Runs(classes)))
  }

  /** More characters never make fewer runs. */
  lemma {:induction false} RunsGrow(classes: seq<Class>, n: nat)
    requires n <= |classes|
    ensures |Runs(classes[..n])| <= |Runs(classes)|
  {
    if n < |classes| {
      RunsGrow(classes[..|classes| - 1], n);
      assert classes[..|classes| - 1][..n] == classes[..n];
    } else {
      assert classes[..n] == classes;
    }
  }

  /** `_regex_class` and `regexClass`: the loop that stops as soon as there are too many runs. */
  method SignatureLoop(classes: seq<Class>, limit: nat) returns (r: Option<string>)
    ensures r == Signature(classes, limit)
  {
    if classes == [] {
      return None;
    }
    var runs: seq<Run> := [];
    var i := 0;
    while i < |classes|
      invariant 0 <= i <= |classes| && runs == Runs(classes[..i])
      invariant |runs| <= limit
    {
      var cls := classes[i];
      assert classes[..i + 1][..i] == classes[..i];
      if |runs| > 0 && runs[|runs| - 1].cls == cls {
        runs := runs[|runs| - 1 := Run(cls, runs[|runs| - 1].count + 1)];
      } else {
        runs := runs + [Run(cls, 1)];
      }
      if |runs| > limit {
        RunsGrow(classes, i + 1);
        return Some(Collapsed(|classes|));
      }
      i := i + 1;
    }
    assert classes[..i] == classes;
    var text := PrintLoop(runs);
    return Some(text);
  }

  method PrintLoop(runs: seq<Run>) returns (text: string)
    ensures text == Print(runs)
  {
    hide PrintRun;
    text := "";
    var k := 0;
    while k < |runs|
      invariant 0 <= k <= |runs| && text == Print(runs[..k])
    {
      assert runs[..k + 1][..k] == runs[..k];
      text := text + PrintRun(runs[k]);
      k := k + 1;
    }
    assert runs[..k] == runs;
  }

  // ---------- What a signature says ----------

  function Repeat(cls: Class, n: nat): (s: seq<Class>)
    ensures |s| == n
  {
    seq(n, _ => cls)
  }

  /** The classes a list of runs stands for, character by character. */
  function Expand(runs: seq<Run>): seq<Class> {
    if runs == [] then []
    else Expand(runs[..|runs| - 1]) + Repeat(runs[|runs| - 1].cls, runs[|runs| - 1].count)
  }

  /** Non-empty runs, neighbours of different classes: the runs cannot be longer. */
  ghost predicate Maximal(runs: seq<Run>) {
    && (forall i :: 0 <= i < |runs| ==> runs[i].count > 0)
    && (forall i, j :: 0 <= i < j < |runs| && j == i + 1 ==> runs[i].cls != runs[j].cls)
  }

  lemma ExtendKeeps(runs: seq<Run>, cls: Class)
    requires Maximal(runs)
    ensures Maximal(Extend(runs, cls)) && Expand(Extend(runs, cls)) == Expand(runs) + [cls]
  {
    var n := |runs|;
    var after := Extend(runs, cls);
    if n > 0 && runs[n - 1].cls == cls {
      assert after[..n - 1] == runs[..n - 1];
      assert Repeat(cls, runs[n - 1].count + 1) == Repeat(cls, runs[n - 1].count) + [cls];
    } else {
      assert after[..n] == runs;
      assert Repeat(cls, 1) == [cls];
    }
  }

  /** The runs are maximal and match the value's classes character by character. */
  lemma {:induction false} RunsMatch(classes: seq<Class>)
    ensures Maximal(Runs(classes)) && Expand(Runs(classes)) == classes
  {
    if classes != [] {
      var front, last := classes[..|classes| - 1], classes[|classes| - 1];
      RunsMatch(front);
      ExtendKeeps(Runs(front), last);
      assert classes == front + [last];
    }
  }

  /** Maximal runs are determined by the classes they stand for. */
  lemma {:induction false} MaximalUnique(a: seq<Run>, b: seq<Run>)
    requires Maximal(a) && Maximal(b) && Expand(a) == Expand(b)
    ensures a == b
  {
    ExpandNonEmpty(a);
    ExpandNonEmpty(b);
    if a != [] {
      var x, y := a[|a| - 1], b[|b| - 1];
      var p, q := a[..|a| - 1], b[..|b| - 1];
      assert a == p + [x] && b == q + [y];
      TailStops(p, x);
      TailStops(q, y);
      assert Expand(a) == Expand(p) + Repeat(x.cls, x.count);
      assert Expand(b) == Expand(q) + Repeat(y.cls, y.count);
      SameTail(Expand(p), x, Expand(q), y);
      MaximalUnique(p, q);
    }
  }

  /** A last run that cannot be extended to the left is fixed by the whole sequence. */
  lemma SameTail(p: seq<Class>, x: Run, q: seq<Class>, y: Run)
    requires x.count > 0 && y.count > 0
    requires p + Repeat(x.cls, x.count) == q + Repeat(y.cls, y.count)
    requires p != [] ==> p[|p| - 1] != x.cls
    requires q != [] ==> q[|q| - 1] != y.cls
    ensures p == q && x == y
  {
    var s := p + Repeat(x.cls, x.count);
    assert s[|s| - 1] == x.cls == y.cls;
    assert p != [] ==> s[|p| - 1] == p[|p| - 1];
    assert q != [] ==> s[|q| - 1] == q[|q| - 1];
    assert forall i :: |q| <= i < |s| ==> s[i] == y.cls;
    assert forall i :: |p| <= i < |s| ==> s[i] == x.cls;
    assert |p| == |q|;
    assert p == s[..|p|] && q == s[..|q|];
  }

  lemma ExpandNonEmpty(runs: seq<Run>)
    requires Maximal(runs)
    ensures runs != [] ==> Expand(runs) != []
  {
  }

  lemma TailStops(front: seq<Run>, x: Run)
    requires Maximal(front + [x])
    ensures Maximal(front)
    ensures front != [] ==> Expand(front) != [] && Expand(front)[|Expand(front)| - 1] != x.cls
  {
    var all := front + [x];
    assert forall i :: 0 <= i < |front| ==> front[i] == all[i];
    if front != [] {
      var n := |front| - 1;
      assert all[n].cls != all[n + 1].cls;
      assert Expand(front) == Expand(front[..n]) + Repeat(front[n].cls, front[n].count);
    }
  }

  // ---------- Reading a signature back ----------

  /** The class whose text starts `s`. No class text is a prefix of another. */
  function LeadingClass(s: string): Option<Class> {
    if ClassText(Digit) <= s then Some(Digit)
    else if ClassText(UpperLetter) <= s then Some(UpperLetter)
    else if ClassText(LowerLetter) <= s then Some(LowerLetter)
    else if ClassText(Blank) <= s then Some(Blank)
    else if ClassText(Other) <= s then Some(Other)
    else None
  }

  function Parse(s: string): Option<seq<Run>>
    decreases |s|
  {
    if s == "" then Some([])
    else
      var cls := LeadingClass(s);
      if cls.None? then None
      else
        var rest := s[|ClassText(cls.value)|..];
        if rest == "" || rest[0] != '{' then None
        else
          var n := DigitSpan(rest[1..]);
          if n == 0 || |rest| <= n + 1 || rest[n + 1] != '}' then None
          else
            var tail := Parse(rest[n + 2..]);
            if tail.None? then None else Some([Run(cls.value, Value(rest[1..][..n]))] + tail.value)
  }

  lemma {:induction false} PrintFirst(runs: seq<Run>)
    requires runs != []
    ensures Print(runs) == PrintRun(runs[0]) + Print(runs[1..])
  {
    hide PrintRun;
    var n := |runs| - 1;
    if n > 0 {
      PrintFirst(runs[..n]);
      assert runs[..n][1..] == runs[1..][..n - 1];
      Assoc(PrintRun(runs[0]), Print(runs[1..][..n - 1]), PrintRun(runs[n]));
    } else {
      assert runs[..0] == [] && runs[1..] == [];
    }
  }

  lemma Assoc(a: string, b: string, c: string)
    ensures (a + b) + c == a + (b + c)
  {
  }

  lemma LeadingClassPrinted(cls: Class, rest: string)
    ensures LeadingClass(ClassText(cls) + rest) == Some(cls)
  {
    var s := ClassText(cls) + rest;
    assert s[1] == ClassText(cls)[1] && s[2] == ClassText(cls)[2];
    assert ClassText(cls) <= s;
  }

  lemma ParseOneRun(r: Run, rest: string)
    ensures Parse(PrintRun(r) + rest) == if Parse(rest).None? then None else Some([r] + Parse(rest).value)
  {
    hide Numeral, ClassText, Value, DigitSpan, LeadingClass;
    var digits := Numeral(r.count);
    var s := PrintRun(r) + rest;
    var body := "{" + (digits + ("}" + rest));
    assert s == ClassText(r.cls) + body;
    LeadingClassPrinted(r.cls, body);
    assert s[|ClassText(r.cls)|..] == body;
    assert body[1..] == digits + ("}" + rest);
    DigitSpanAppend(digits, "}" + rest);
    assert body[1..][..|digits|] == digits;
    assert body[|digits| + 2..] == rest;
  }

  /** A printed signature reads back to exactly the runs it was printed from. */
  lemma {:induction false} ParsePrint(runs: seq<Run>)
    ensures Parse(Print(runs)) == Some(runs)
  {
    hide *;
    if runs == [] {
      ParseEmpty();
    } else {
      PrintFirst(runs);
      ParsePrint(runs[1..]);
      ParseOneRun(runs[0], Print(runs[1..]));
      assert runs == [runs[0]] + runs[1..];
    }
  }

  lemma ParseEmpty()
    ensures Print([]) == "" && Parse("") == Some([])
  {
  }

  lemma CollapsedDoesNotParse(length: nat)
    ensures Parse(Collapsed(length)) == None
  {
    var s := Collapsed(length);
    assert s[1] == '\\' && s[3] == '\\';
  }

  /**
   * A signature reads back to the one list of maximal runs that matches the value character by
   * character, or it is the collapsed form, and it is that exactly when there are too many runs.
   */
  lemma SignatureFaithful(classes: seq<Class>, limit: nat)
    requires classes != []
    ensures var text := Signature(classes, limit).value;
            if |Runs(classes)| > limit then text == Collapsed(|classes|) && Parse(text) == None
            else Parse(text).Some? && Maximal(Parse(text).value) && Expand(Parse(text).value) == classes
                 && forall runs :: Maximal(runs) && Expand(runs) == classes ==> runs == Parse(text).value
  {
    RunsMatch(classes);
    ParsePrint(Runs(classes));
    CollapsedDoesNotParse(|classes|);
    forall runs | Maximal(runs) && Expand(runs) == classes ensures runs == Runs(classes) {
      MaximalUnique(runs, Runs(classes));
    }
  }

  // ---------- Shapes and the no-echo rule ----------

  datatype Charset = Numeric | Alpha | Alnum | Mixed | Empty

  function CharsetText(c: Charset): (s: string)
    ensures |s| > 0
  {
    match c
    case Numeric => "numeric"
    case Alpha => "alpha"
    case Alnum => "alnum"
    case Mixed => "mixed"
    case Empty => "empty"
  }

  datatype ValueShape = ValueShape(
    len: Option<nat>, charset: Option<Charset>, regexClass: Option<string>, expected: Option<string>)

  /** `_enforce_no_echo`: a field whose printed form equals the value is nulled, the others stay. */
  function WithoutEcho(shape: ValueShape, raw: string): ValueShape {
    ValueShape(
      if shape.len.Some? && Numeral(shape.len.value) == raw then None else shape.len,
      if shape.charset.Some? && CharsetText(shape.charset.value) == raw then None else shape.charset,
      if shape.regexClass == Some(raw) then None else shape.regexClass,
      if shape.expected == Some(raw) then None else shape.expected)
  }

  /** `_enforce_no_echo` as it runs: the printed fields are nulled in place, one after the other. */
  method EnforceNoEcho(shape: ValueShape, raw: string) returns (r: ValueShape)
    ensures r == WithoutEcho(shape, raw)
  {
    var fields := new Option<string>[4] [
      if shape.len.Some? then Some(Numeral(shape.len.value)) else None,
      if shape.charset.Some? then Some(CharsetText(shape.charset.value)) else None,
      shape.regexClass, shape.expected];
    ghost var printed := fields[..];
    var suppressed := 0;
    for i := 0 to 4
      invariant fields.Length == 4 && suppressed <= i
      invariant forall k :: 0 <= k < 4 ==> fields[k] == if k < i && printed[k] == Some(raw) then None else printed[k]
      invariant suppressed == 0 ==> fields[..] == printed
    {
      if fields[i] == Some(raw) {
        fields[i] := None;
        suppressed := suppressed + 1;
      }
    }
    if suppressed == 0 {
      forall k | 0 <= k < 4 ensures printed[k] != Some(raw) {
        assert fields[..][k] == fields[k];
      }
      assert printed[0] != Some(raw) && printed[1] != Some(raw) && printed[2] != Some(raw) && printed[3] != Some(raw);
      return shape;
    }
    return ValueShape(if fields[0].Some? then shape.len else None,
                      if fields[1].Some? then shape.charset else None,
                      fields[2], fields[3]);
  }

  /** The printed forms of the fields of a shape. */
  function Fields(shape: ValueShape): set<string> {
    (if shape.len.Some? then {Numeral(shape.len.value)} else {})
    + (if shape.charset.Some? then {CharsetText(shape.charset.value)} else {})
    + (if shape.regexClass.Some? then {shape.regexClass.value} else {})
    + (if shape.expected.Some? then {shape.expected.value} else {})
  }

  /** Exactly the fields that echo the value disappear. */
  lemma NoEcho(shape: ValueShape, raw: string)
    ensures Fields(WithoutEcho(shape, raw)) == Fields(shape) - {raw}
  {
  }

  // ---------- The two derivations ----------

  predicate IsUpper(c: char) { 'A' <= c <= 'Z' }

  predicate IsLower(c: char) { 'a' <= c <= 'z' }

  /** What Python knows of characters beyond ASCII: `str.isdigit`, `str.isspace`, and `\d`, `\w` of `re`. */
  datatype Unicode = Unicode(isDigit: char -> bool, isSpace: char -> bool, reDigit: char -> bool, reWord: char -> bool)

  predicate IsAscii(c: char) { c < '\U{0080}' }

  /** The tables agree with ASCII, and every `\d` character is a `\w` character. */
  ghost predicate Sound(u: Unicode) {
    && (forall c: char :: IsAscii(c) ==> (u.isDigit(c) <==> IsDigit(c)))
    && (forall c: char :: IsAscii(c) ==> (u.isSpace(c) <==> '\t' <= c <= '\r' || '\U{001C}' <= c <= ' '))
    && (forall c: char :: IsAscii(c) ==> (u.reDigit(c) <==> IsDigit(c)))
    && (forall c: char :: IsAscii(c) ==> (u.reWord(c) <==> IsDigit(c) || IsUpper(c) || IsLower(c) || c == '_'))
    && (forall c: char :: u.reDigit(c) ==> u.reWord(c))
  }

  /** `_char_class` of redaction.py. */
  function PyClass(u: Unicode, c: char): Class {
    if u.isDigit(c) then Digit
    else if IsUpper(c) then UpperLetter
    else if IsLower(c) then LowerLetter
    else if u.isSpace(c) then Blank
    else Other
  }

  /** `charClass` of shape.ts. */
  function TsClass(c: char): Class {
    if IsDigit(c) then Digit
    else if IsUpper(c) then UpperLetter
    else if IsLower(c) then LowerLetter
    else if JsText.IsSpace(c) then Blank
    else Other
  }

  function PyClasses(u: Unicode, v: string): (cs: seq<Class>)
    ensures |cs| == |v|
  {
    seq(|v|, i requires 0 <= i < |v| => PyClass(u, v[i]))
  }

  function TsClasses(v: string): (cs: seq<Class>)
    ensures |cs| == |v|
  {
    seq(|v|, i requires 0 <= i < |v| => TsClass(v[i]))
  }

  predicate All(v: string, p: char -> bool) {
    forall i :: 0 <= i < |v| ==> p(v[i])
  }

  predicate IsAlnum(c: char) { IsDigit(c) || IsUpper(c) || IsLower(c) }

  /** `_classify`: isdigit, then isalpha and isascii, then isalnum and isascii. */
  function PyCharset(u: Unicode, v: string): Charset {
    if v == "" then Empty
    else if All(v, u.isDigit) then Numeric
    else if All(v, c => IsUpper(c) || IsLower(c)) then Alpha
    else if All(v, IsAlnum) then Alnum
    else Mixed
  }

  function TsCharset(v: string): Charset {
    if v == "" then Empty
    else if All(v, IsDigit) then Numeric
    else if All(v, c => IsUpper(c) || IsLower(c)) then Alpha
    else if All(v, IsAlnum) then Alnum
    else Mixed
  }

  /** `_MAX_RUNS` of redaction.py. */
  const PY_MAX_RUNS: nat := 12

  /** `MAX_RUNS` of shape.ts. */
  const TS_MAX_RUNS: nat := 32

  function DeriveValueShape(u: Unicode, raw: Option<string>, expected: Option<string>): ValueShape {
    if raw.None? then ValueShape(None, None, None, expected)
    else
      var v := raw.value;
      WithoutEcho(ValueShape(Some(|v|), Some(PyCharset(u, v)), Signature(PyClasses(u, v), PY_MAX_RUNS), expected), v)
  }

  function TsValueShape(raw: Option<string>, expected: Option<string>): ValueShape {
    if raw.None? then ValueShape(None, None, None, expected)
    else
      var v := raw.value;
      WithoutEcho(ValueShape(Some(|v|), Some(TsCharset(v)), Signature(TsClasses(v), TS_MAX_RUNS), expected), v)
  }

  /** M0 exit criterion 3: no field of a derived shape equals the value it was derived from. */
  lemma DerivedShapeHasNoEcho(u: Unicode, v: string, expected: Option<string>)
    ensures v !in Fields(DeriveValueShape(u, Some(v), expected))
    ensures v !in Fields(TsValueShape(Some(v), expected))
  {
    NoEcho(ValueShape(Some(|v|), Some(PyCharset(u, v)), Signature(PyClasses(u, v), PY_MAX_RUNS), expected), v);
    NoEcho(ValueShape(Some(|v|), Some(TsCharset(v)), Signature(TsClasses(v), TS_MAX_RUNS), expected), v);
  }

  // ---------- Where the two derivations agree ----------

  predicate Printable(v: string) {
    forall i :: 0 <= i < |v| ==> ' ' <= v[i] <= '~'
  }

  lemma {:induction false} RunsConcat(a: seq<Class>, b: seq<Class>)
    ensures |Runs(a + b)| <= |Runs(a)| + |Runs(b)|
    ensures b != [] && Runs(b) != [] && |b| > 0 ==> Runs(a + b) != [] && Runs(a + b)[|Runs(a + b)| - 1].cls == b[|b| - 1]
  {
    if b == [] {
      assert a + b == a;
    } else {
      var front, last := b[..|b| - 1], b[|b| - 1];
      RunsConcat(a, front);
      assert (a + b)[..|a + b| - 1] == a + front;
      if front == [] {
        assert a + front == a;
      } else {
        RunsEnd(front);
      }
    }
  }

  lemma RunsEnd(classes: seq<Class>)
    requires classes != []
    ensures Runs(classes) != [] && Runs(classes)[|Runs(classes)| - 1].cls == classes[|classes| - 1]
  {
  }

  lemma {:induction false} OneRun(classes: seq<Class>)
    requires forall i :: 0 <= i < |classes| ==> classes[i] == Digit
    ensures |Runs(classes)| <= 1
  {
    if classes != [] {
      OneRun(classes[..|classes| - 1]);
      if |classes| > 1 {
        RunsEnd(classes[..|classes| - 1]);
      }
    }
  }

  /** A value that spells a collapsed signature has at most nine runs itself. */
  lemma CollapsedHasFewRuns(n: nat)
    ensures |Runs(TsClasses(Collapsed(n)))| <= 9
  {
    var head, digits, tail := "[\\s\\S]{", Numeral(n), "}";
    var cs := TsClasses(Collapsed(n));
    assert cs == TsClasses(head) + TsClasses(digits) + TsClasses(tail);
    RunsConcat(TsClasses(head) + TsClasses(digits), TsClasses(tail));
    RunsConcat(TsClasses(head), TsClasses(digits));
    OneRun(TsClasses(digits));
    HeadRuns();
  }

  lemma HeadRuns()
    ensures |Runs(TsClasses("[\\s\\S]{"))| <= 7
  {
    var cs := TsClasses("[\\s\\S]{");
    assert cs[0] == Other && cs[1] == Other;
    assert |Runs(cs[..2])| <= 1 by {
      assert cs[..2][..1] == cs[..1] && cs[..1][..0] == [];
    }
    assert cs == cs[..2] + cs[2..];
    RunsConcat(cs[..2], cs[2..]);
  }

  /**
   * On printable ASCII the two derivations agree exactly when the value has at most 12 runs or more
   * than 32: between the two limits redaction.py collapses the signature and shape.ts prints it.
   */
  lemma DerivationsAgree(u: Unicode, v: string, expected: Option<string>)
    requires Sound(u) && Printable(v)
    ensures DeriveValueShape(u, Some(v), expected) == TsValueShape(Some(v), expected) <==>
            |Runs(TsClasses(v))| <= PY_MAX_RUNS || |Runs(TsClasses(v))| > TS_MAX_RUNS
  {
    hide *;
    SameClasses(u, v);
    SignaturesAgree(TsClasses(v), v);
    DerivedBy(u, v, expected);
    var rest := ValueShape(Some(|v|), Some(TsCharset(v)), None, expected);
    EchoKeepsDifference(rest, Signature(TsClasses(v), PY_MAX_RUNS), Signature(TsClasses(v), TS_MAX_RUNS), v);
  }

  lemma DerivedBy(u: Unicode, v: string, expected: Option<string>)
    ensures DeriveValueShape(u, Some(v), expected)
            == WithoutEcho(ValueShape(Some(|v|), Some(PyCharset(u, v)), None, expected).(regexClass := Signature(PyClasses(u, v), PY_MAX_RUNS)), v)
    ensures TsValueShape(Some(v), expected)
            == WithoutEcho(ValueShape(Some(|v|), Some(TsCharset(v)), None, expected).(regexClass := Signature(TsClasses(v), TS_MAX_RUNS)), v)
  {
    hide WithoutEcho, Signature, PyCharset, TsCharset, PyClasses, TsClasses;
  }

  /** Two signatures of which the first does not echo the value. */
  lemma EchoKeepsDifference(rest: ValueShape, a: Option<string>, b: Option<string>, raw: string)
    requires a != b ==> a.Some? && a != Some(raw)
    ensures WithoutEcho(rest.(regexClass := a), raw) == WithoutEcho(rest.(regexClass := b), raw) <==> a == b
  {
    hide Numeral, CharsetText;
  }

  lemma SignaturesAgree(cs: seq<Class>, v: string)
    requires cs == TsClasses(v)
    ensures var a, b := Signature(cs, PY_MAX_RUNS), Signature(cs, TS_MAX_RUNS);
            && (a == b <==> |Runs(cs)| <= PY_MAX_RUNS || |Runs(cs)| > TS_MAX_RUNS)
            && (a != b ==> a.Some? && a != Some(v))
  {
    hide Runs, Parse, Maximal, Expand, TsClasses, Collapsed, Print;
    if PY_MAX_RUNS < |Runs(cs)| <= TS_MAX_RUNS {
      NoRunsOfNothing();
      CollapsedDoesNotParse(|cs|);
      ParsePrint(Runs(cs));
      CollapsedIsNot(v);
    }
  }

  lemma NoRunsOfNothing()
    ensures Runs([]) == []
  {
  }

  lemma SameClasses(u: Unicode, v: string)
    requires Sound(u) && Printable(v)
    ensures PyClasses(u, v) == TsClasses(v) && PyCharset(u, v) == TsCharset(v)
  {
    assert forall i :: 0 <= i < |v| ==> IsAscii(v[i]);
    assert All(v, u.isDigit) <==> All(v, IsDigit);
  }

  lemma CollapsedIsNot(v: string)
    requires |Runs(TsClasses(v))| > PY_MAX_RUNS
    ensures Collapsed(|v|) != v
  {
    hide Runs, TsClasses, Collapsed;
    CollapsedHasFewRuns(|v|);
  }

  // ---------- Signatures as regular expressions ----------

  /** Membership in the inside of a bracket: escapes for blanks, ranges, and single characters. */
  predicate InBracket(body: string, c: char, space: char -> bool) {
    if body == "" then false
    else if |body| >= 2 && body[0] == '\\' then
      (body[1] == 's' && space(c)) || (body[1] == 'S' && !space(c)) || InBracket(body[2..], c, space)
    else if |body| >= 3 && body[1] == '-' then body[0] <= c <= body[2] || InBracket(body[3..], c, space)
    else body[0] == c || InBracket(body[1..], c, space)
  }

  /** A caret at the start turns the bracket around. */
  predicate InClass(body: string, c: char, space: char -> bool) {
    if body != "" && body[0] == '^' then !InBracket(body[1..], c, space) else InBracket(body, c, space)
  }

  function BracketSpan(s: string): (n: nat)
    ensures n <= |s|
  {
    if s == "" || s[0] == ']' then 0 else 1 + BracketSpan(s[1..])
  }

  /** The value as a whole matches a regular expression made of brackets with counts. */
  predicate Matches(regex: string, v: string, space: char -> bool)
    decreases |regex|
  {
    if regex == "" then v == ""
    else regex[0] == '[' && MatchesCount(regex[1..][..BracketSpan(regex[1..])], regex[1..][BracketSpan(regex[1..])..], v, space)
  }

  /** From the end of a bracket on. */
  predicate MatchesCount(body: string, after: string, v: string, space: char -> bool)
    decreases |after|
  {
    && |after| >= 2 && after[1] == '{'
    && var k := DigitSpan(after[2..]);
    && k > 0 && |after| > k + 2 && after[k + 2] == '}'
    && var count := Value(after[2..][..k]);
    && count <= |v| && (forall i :: 0 <= i < count ==> InClass(body, v[i], space))
    && Matches(after[k + 3..], v[count..], space)
  }

  /** The text between the brackets of a class. */
  function Inside(cls: Class): string {
    match cls
    case Digit => "0-9"
    case UpperLetter => "A-Z"
    case LowerLetter => "a-z"
    case Blank => "\\s"
    case Other => "^A-Za-z0-9"
  }

  lemma ClassTextIsBracket(cls: Class)
    ensures ClassText(cls) == "[" + Inside(cls) + "]"
  {
  }

  lemma {:induction false} BracketSpanAppend(body: string, rest: string)
    requires ']' !in body && (rest != "" ==> rest[0] == ']')
    ensures BracketSpan(body + rest) == |body|
  {
    if body == "" {
      assert body + rest == rest;
    } else {
      assert (body + rest)[1..] == body[1..] + rest;
      BracketSpanAppend(body[1..], rest);
    }
  }

  /** A bracket, the closing of its count, and what follows. */
  function Counted(digits: string, tail: string): string {
    "]" + ("{" + (digits + ("}" + tail)))
  }

  function Bracketed(body: string, count: nat, tail: string): string {
    "[" + (body + Counted(Numeral(count), tail))
  }

  lemma CountedParts(digits: string, tail: string)
    ensures var after := Counted(digits, tail);
            && |after| > |digits| + 2 && after[0] == ']' && after[1] == '{' && after[2..] == digits + ("}" + tail)
            && after[|digits| + 2] == '}' && after[|digits| + 3..] == tail
  {
  }

  lemma BracketedParts(body: string, after: string)
    ensures var regex := "[" + (body + after);
            regex != "" && regex[0] == '[' && regex[1..] == body + after && regex[1..][..|body|] == body && regex[1..][|body|..] == after
  {
  }

  lemma MatchesBracket(body: string, after: string, v: string, space: char -> bool)
    requires ']' !in body && after != "" && after[0] == ']'
    ensures Matches("[" + (body + after), v, space) <==> MatchesCount(body, after, v, space)
  {
    hide MatchesCount, InClass;
    BracketSpanAppend(body, after);
    BracketedParts(body, after);
    hide BracketSpan;
  }

  /** One bracket with its count, and what follows. */
  lemma MatchesOne(body: string, count: nat, tail: string, v: string, space: char -> bool)
    requires ']' !in body
    ensures Matches(Bracketed(body, count, tail), v, space)
            <==> && count <= |v| && (forall i :: 0 <= i < count ==> InClass(body, v[i], space))
                 && Matches(tail, v[count..], space)
  {
    hide Numeral, DigitSpan, Value, InClass, BracketSpan, Counted, Matches;
    var digits := Numeral(count);
    var after := Counted(digits, tail);
    CountedParts(digits, tail);
    MatchesBracket(body, after, v, space);
    DigitSpanAppend(digits, "}" + tail);
    assert (digits + ("}" + tail))[..|digits|] == digits;
  }

  /** A class's bracket has exactly the characters of the class, when `\\s` matches what is classed as a blank. */
  lemma InsideMeans(cls: Class, c: char, space: char -> bool)
    ensures InClass(Inside(cls), c, space)
            <==> match cls
                 case Digit => IsDigit(c)
                 case UpperLetter => IsUpper(c)
                 case LowerLetter => IsLower(c)
                 case Blank => space(c)
                 case Other => !IsAlnum(c)
  {
    match cls
    case Other =>
      assert "^A-Za-z0-9"[1..] == "A-Za-z0-9";
      assert "A-Za-z0-9"[3..] == "a-z0-9" && "a-z0-9"[3..] == "0-9" && "0-9"[3..] == "";
      LastRange('0', '9', c, space);
      assert InBracket("a-z0-9", c, space) <==> IsLower(c) || IsDigit(c);
    case Digit => LastRange('0', '9', c, space);
    case UpperLetter => LastRange('A', 'Z', c, space);
    case LowerLetter => LastRange('a', 'z', c, space);
    case Blank =>
      assert "\\s"[2..] == "" && !InBracket("", c, space);
  }

  lemma LastRange(a: char, b: char, c: char, space: char -> bool)
    requires a != '\\'
    ensures InBracket([a, '-', b], c, space) <==> a <= c <= b
  {
    assert [a, '-', b][3..] == "";
  }

  lemma InsideHasNoBracket(cls: Class)
    ensures ']' !in Inside(cls)
  {
  }

  /** One by one, the characters are in the brackets of the classes. */
  ghost predicate Fits(v: string, classes: seq<Class>, space: char -> bool) {
    |v| == |classes| && forall i :: 0 <= i < |v| ==> InClass(Inside(classes[i]), v[i], space)
  }

  ghost predicate StartsIn(v: string, n: nat, body: string, space: char -> bool) {
    n <= |v| && forall i :: 0 <= i < n ==> InClass(body, v[i], space)
  }

  lemma FitsSplits(v: string, cls: Class, n: nat, r: seq<Class>, space: char -> bool)
    ensures Fits(v, Repeat(cls, n) + r, space) <==> StartsIn(v, n, Inside(cls), space) && Fits(v[n..], r, space)
  {
    hide Inside, InClass;
    var e := Repeat(cls, n) + r;
    if n <= |v| {
      assert forall i :: 0 <= i < |v[n..]| ==> v[n..][i] == v[n + i];
      assert forall i :: n <= i < |v| ==> v[i] == v[n..][i - n];
      assert forall i :: n <= i < |e| ==> e[i] == r[i - n];
      assert forall i :: 0 <= i < |r| ==> r[i] == e[n + i];
    }
  }

  lemma MatchesStarts(body: string, count: nat, tail: string, v: string, space: char -> bool)
    requires ']' !in body
    ensures Matches(Bracketed(body, count, tail), v, space) <==> StartsIn(v, count, body, space) && Matches(tail, v[count..], space)
  {
    hide Bracketed, Matches, InClass;
    MatchesOne(body, count, tail, v, space);
  }

  /** A printed signature matches the values whose characters are, one by one, in the classes of its runs. */
  lemma {:induction false} PrintedMatches(runs: seq<Run>, v: string, space: char -> bool)
    ensures Matches(Print(runs), v, space) <==> Fits(v, Expand(runs), space)
    decreases |runs|
  {
    hide *;
    if runs == [] {
      MatchesNothing(v, space);
    } else {
      var first, rest := runs[0], runs[1..];
      PrintFirst(runs);
      PrintRunIs(first, Print(rest));
      InsideHasNoBracket(first.cls);
      MatchesStarts(Inside(first.cls), first.count, Print(rest), v, space);
      ExpandFirst(runs);
      FitsSplits(v, first.cls, first.count, Expand(rest), space);
      StartsIsShort(v, first.count, Inside(first.cls), space);
      if first.count <= |v| {
        PrintedMatches(rest, v[first.count..], space);
      }
    }
  }

  lemma StartsIsShort(v: string, n: nat, body: string, space: char -> bool)
    ensures StartsIn(v, n, body, space) ==> n <= |v|
  {
  }

  lemma MatchesNothing(v: string, space: char -> bool)
    ensures Matches(Print([]), v, space) <==> Fits(v, Expand([]), space)
  {
  }

  lemma PrintRunIs(r: Run, tail: string)
    ensures PrintRun(r) + tail == Bracketed(Inside(r.cls), r.count, tail)
  {
    ClassTextIsBracket(r.cls);
    hide Numeral, ClassText, Inside;
    var digits := Numeral(r.count);
    assert "[" + Inside(r.cls) + "]" + "{" + digits + "}" + tail == "[" + (Inside(r.cls) + ("]" + ("{" + (digits + ("}" + tail)))));
  }

  lemma {:induction false} ExpandFirst(runs: seq<Run>)
    requires runs != []
    ensures Expand(runs) == Repeat(runs[0].cls, runs[0].count) + Expand(runs[1..])
    decreases |runs|
  {
    var n := |runs| - 1;
    if n > 0 {
      ExpandFirst(runs[..n]);
      assert runs[..n][1..] == runs[1..][..n - 1];
    } else {
      assert runs[..0] == [] && runs[1..] == [];
    }
  }

  lemma CollapsedMatches(v: string, space: char -> bool)
    ensures Matches(Collapsed(|v|), v, space)
  {
    hide *;
    CollapsedIs(|v|);
    MatchesOne("\\s\\S", |v|, "", v, space);
    assert v[|v|..] == "";
    forall i | 0 <= i < |v| ensures InClass("\\s\\S", v[i], space) {
      AnyCharacter(v[i], space);
    }
    MatchesEmpty(space);
  }

  lemma CollapsedIs(n: nat)
    ensures Collapsed(n) == Bracketed("\\s\\S", n, "")
  {
    hide Numeral;
  }

  lemma AnyCharacter(c: char, space: char -> bool)
    ensures InClass("\\s\\S", c, space)
  {
    assert "\\s\\S"[2..] == "\\S" && "\\S"[2..] == "";
    assert InBracket("\\S", c, space) <==> !space(c);
  }

  lemma MatchesEmpty(space: char -> bool)
    ensures Matches("", "", space)
  {
  }

  /** A signature derived by shape.ts, read as a regular expression of ECMAScript, matches the value it was derived from. */
  lemma TsSignatureMatches(v: string)
    requires v != ""
    ensures Signature(TsClasses(v), TS_MAX_RUNS).Some? && Matches(Signature(TsClasses(v), TS_MAX_RUNS).value, v, JsText.IsSpace)
  {
    hide Runs, Matches, Print, Collapsed, InClass, Inside, Expand, Maximal, JsText.IsSpace;
    CollapsedMatches(v, JsText.IsSpace);
    RunsMatch(TsClasses(v));
    PrintedMatches(Runs(TsClasses(v)), v, JsText.IsSpace);
    forall i | 0 <= i < |v| ensures InClass(Inside(TsClasses(v)[i]), v[i], JsText.IsSpace) {
      InsideMeans(TsClass(v[i]), v[i], JsText.IsSpace);
    }
  }

  /**
   * One derived by redaction.py, read as a regular expression of Python, matches the value exactly when it is collapsed
   * or no character is a digit beyond ASCII: `str.isdigit` holds of characters that [0-9] does not have.
   */
  lemma PySignatureMatchesExactly(u: Unicode, v: string)
    requires Sound(u) && v != ""
    ensures Signature(PyClasses(u, v), PY_MAX_RUNS).Some?
    ensures Matches(Signature(PyClasses(u, v), PY_MAX_RUNS).value, v, u.isSpace)
            <==> |Runs(PyClasses(u, v))| > PY_MAX_RUNS || forall i :: 0 <= i < |v| ==> (u.isDigit(v[i]) ==> IsDigit(v[i]))
  {
    hide Runs, Matches, Print, Collapsed, InClass, Inside, Expand, Maximal;
    CollapsedMatches(v, u.isSpace);
    RunsMatch(PyClasses(u, v));
    PrintedMatches(Runs(PyClasses(u, v)), v, u.isSpace);
    forall i | 0 <= i < |v|
      ensures InClass(Inside(PyClasses(u, v)[i]), v[i], u.isSpace) <==> (u.isDigit(v[i]) ==> IsDigit(v[i]))
    {
      InsideMeans(PyClass(u, v[i]), v[i], u.isSpace);
    }
  }

  /** What the coarse classification says of a value. */
  lemma CharsetMeans(v: string)
    ensures TsCharset(v) == Empty <==> v == ""
    ensures TsCharset(v) == Numeric <==> v != "" && forall i :: 0 <= i < |v| ==> '0' <= v[i] <= '9'
    ensures TsCharset(v) == Alpha <==> v != "" && forall i :: 0 <= i < |v| ==> 'a' <= v[i] <= 'z' || 'A' <= v[i] <= 'Z'
    ensures TsCharset(v) == Mixed <==> exists i :: 0 <= i < |v| && !IsAlnum(v[i])
  {
    if v != "" && All(v, IsDigit) {
      assert '0' <= v[0] <= '9';
    }
  }
}
