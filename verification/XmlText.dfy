/**
 * XML text: what the UBL printer writes (apps/web/modules/mapping/ubl.ts, escapeXml and el) and what a
 * conforming reader makes of it: end-of-line handling (section 2.11 of XML 1.0), the predefined entities
 * (section 4.6) and attribute-value normalisation (section 3.3.3). The reader knows the constructs the
 * printer uses.
 */
module XmlText {
  import opened Base

  datatype Attr = Attr(name: string, value: string)

  /** An element with text before its child elements. */
  datatype Xml = Elem(name: string, attrs: seq<Attr>, text: string, kids: seq<Xml>)

  // ---------- Escaping ----------

  /** `s.replace(/c/g, with)`. */
  function ReplaceAll(s: string, c: char, with: string): string {
    if s == "" then "" else (if s[0] == c then with else [s[0]]) + ReplaceAll(s[1..], c, with)
  }

  /** `escapeXml`: five replacements one after another. */
  function EscapeXml(s: string): string {
    ReplaceAll(ReplaceAll(ReplaceAll(ReplaceAll(ReplaceAll(s, '&', "&amp;"), '<', "&lt;"), '>', "&gt;"), '"', "&quot;"), '\'', "&apos;")
  }

  function EscapeChar(c: char): string {
    if c == '&' then "&amp;" else if c == '<' then "&lt;" else if c == '>' then "&gt;"
    else if c == '"' then "&quot;" else if c == '\'' then "&apos;" else [c]
  }

  /** The one-pass reading of the escaping. */
  function Escape(s: string): string {
    if s == "" then "" else EscapeChar(s[0]) + Escape(s[1..])
  }

  lemma {:induction false} ReplaceConcat(a: string, b: string, c: char, with: string)
    ensures ReplaceAll(a + b, c, with) == ReplaceAll(a, c, with) + ReplaceAll(b, c, with)
  {
    if a == "" {
      assert a + b == b;
    } else {
      assert (a + b)[1..] == a[1..] + b;
      ReplaceConcat(a[1..], b, c, with);
    }
  }

  lemma {:induction false} ReplaceAbsent(s: string, c: char, with: string)
    requires c !in s
    ensures ReplaceAll(s, c, with) == s
  {
    if s != "" {
      ReplaceAbsent(s[1..], c, with);
    }
  }

  lemma ReplaceOne(x: char, c: char, with: string)
    ensures ReplaceAll([x], c, with) == if x == c then with else [x]
  {
    assert [x][1..] == "";
  }

  lemma EscapeOne(c: char)
    ensures EscapeXml([c]) == EscapeChar(c)
  {
    ReplaceOne(c, '&', "&amp;");
    ReplaceOne(c, '<', "&lt;");
    ReplaceOne(c, '>', "&gt;");
    ReplaceOne(c, '"', "&quot;");
    ReplaceOne(c, '\'', "&apos;");
    var e := EscapeChar(c);
    if c == '&' || c == '<' || c == '>' || c == '"' || c == '\'' {
      assert '<' !in e && '>' !in e && '"' !in e && '\'' !in e;
      ReplaceAbsent(e, '<', "&lt;");
      ReplaceAbsent(e, '>', "&gt;");
      ReplaceAbsent(e, '"', "&quot;");
      ReplaceAbsent(e, '\'', "&apos;");
    }
    hide ReplaceAll;
  }

  lemma EscapeXmlConcat(a: string, b: string)
    ensures EscapeXml(a + b) == EscapeXml(a) + EscapeXml(b)
  {
    hide ReplaceAll;
    ReplaceConcat(a, b, '&', "&amp;");
    var a1, b1 := ReplaceAll(a, '&', "&amp;"), ReplaceAll(b, '&', "&amp;");
    ReplaceConcat(a1, b1, '<', "&lt;");
    var a2, b2 := ReplaceAll(a1, '<', "&lt;"), ReplaceAll(b1, '<', "&lt;");
    ReplaceConcat(a2, b2, '>', "&gt;");
    var a3, b3 := ReplaceAll(a2, '>', "&gt;"), ReplaceAll(b2, '>', "&gt;");
    ReplaceConcat(a3, b3, '"', "&quot;");
    var a4, b4 := ReplaceAll(a3, '"', "&quot;"), ReplaceAll(b3, '"', "&quot;");
    ReplaceConcat(a4, b4, '\'', "&apos;");
  }

  /** The five replacements in that order are the one-pass escaping: no replacement touches another's output. */
  lemma {:induction false} EscapeIsOnePass(s: string)
    ensures EscapeXml(s) == Escape(s)
  {
    if s != "" {
      EscapeIsOnePass(s[1..]);
      assert s == [s[0]] + s[1..];
      EscapeXmlConcat([s[0]], s[1..]);
      EscapeOne(s[0]);
      hide EscapeXml;
    }
  }

  // ---------- Printing ----------

  function PrintAttr(a: Attr): string {
    " " + (a.name + ("=\"" + (Escape(a.value) + "\"")))
  }

  function PrintAttrs(attrs: seq<Attr>): string {
    if attrs == [] then "" else PrintAttr(attrs[0]) + PrintAttrs(attrs[1..])
  }

  function OpenTag(x: Xml): string {
    "<" + (x.name + (PrintAttrs(x.attrs) + ">"))
  }

  function CloseTag(name: string): string {
    "</" + (name + ">")
  }

  function Print(x: Xml): string
    decreases x, 1
  {
    OpenTag(x) + (Escape(x.text) + (PrintAll(x.kids) + CloseTag(x.name)))
  }

  function PrintAll(kids: seq<Xml>): string
    decreases kids, 0
  {
    if kids == [] then "" else Print(kids[0]) + PrintAll(kids[1..])
  }

  // ---------- Reading ----------

  /** Char of section 2.2, for strings of Unicode scalar values. */
  predicate IsXmlChar(c: char) {
    c == '\t' || c == '\n' || c == '\r' || ('\U{0020}' <= c && c != '\U{FFFE}' && c != '\U{FFFF}')
  }

  predicate IsLegal(s: string) {
    forall i :: 0 <= i < |s| ==> IsXmlChar(s[i])
  }

  /** Section 2.11: every line break becomes a single line feed. */
  function Eol(s: string): string {
    if s == "" then ""
    else if s[0] != '\r' then [s[0]] + Eol(s[1..])
    else if |s| > 1 && s[1] == '\n' then "\n" + Eol(s[2..])
    else "\n" + Eol(s[1..])
  }

  /** Section 3.3.3: white space in an attribute value becomes a space. */
  function Spaced(s: string): (t: string)
    ensures |t| == |s|
  {
    seq(|s|, i requires 0 <= i < |s| => if s[i] == '\t' || s[i] == '\n' || s[i] == '\r' then ' ' else s[i])
  }

  predicate IsNameChar(c: char) {
    'a' <= c <= 'z' || 'A' <= c <= 'Z' || '0' <= c <= '9' || c == ':' || c == '-' || c == '_' || c == '.'
  }

  predicate IsName(s: string) {
    s != "" && forall i :: 0 <= i < |s| ==> IsNameChar(s[i])
  }

  function NameSpan(s: string): (n: nat)
    ensures n <= |s|
  {
    if s != "" && IsNameChar(s[0]) then 1 + NameSpan(s[1..]) else 0
  }

  datatype Read<+T> = Read(value: T, rest: string)

  /** One character of text, or one of the five entities. */
  function ReadChar(s: string): (r: Option<Read<char>>)
    ensures r.Some? ==> |r.value.rest| < |s|
  {
    if s == "" then None
    else if s[0] != '&' then Some(Read(s[0], s[1..]))
    else if "&amp;" <= s then Some(Read('&', s[5..]))
    else if "&lt;" <= s then Some(Read('<', s[4..]))
    else if "&gt;" <= s then Some(Read('>', s[4..]))
    else if "&quot;" <= s then Some(Read('"', s[6..]))
    else if "&apos;" <= s then Some(Read('\'', s[6..]))
    else None
  }

  /** Text up to the stopping character, which is left unread; a `<` always stops. */
  function ReadText(s: string, stop: char): (r: Option<Read<string>>)
    ensures r.Some? ==> |r.value.rest| <= |s|
    decreases |s|
  {
    if s == "" then None
    else if s[0] == stop || s[0] == '<' then Some(Read("", s))
    else match ReadChar(s)
         case None => None
         case Some(c) => match ReadText(c.rest, stop)
                         case None => None
                         case Some(t) => Some(Read([c.value] + t.value, t.rest))
  }

  /** ` name="value"` repeated, up to the `>` that closes the tag. */
  function ReadAttrs(s: string): (r: Option<Read<seq<Attr>>>)
    ensures r.Some? ==> |r.value.rest| < |s|
    decreases |s|
  {
    if s == "" then None
    else if s[0] == '>' then Some(Read([], s[1..]))
    else if s[0] != ' ' then None
    else
      var n := NameSpan(s[1..]);
      var after := s[1 + n..];
      if n == 0 || !("=\"" <= after) then None
      else match ReadText(after[2..], '"')
           case None => None
           case Some(v) =>
             if v.rest == "" || v.rest[0] != '"' then None
             else match ReadAttrs(v.rest[1..])
                  case None => None
                  case Some(more) => Some(Read([Attr(s[1..1 + n], Spaced(v.value))] + more.value, more.rest))
  }

  function ReadElement(s: string): (r: Option<Read<Xml>>)
    ensures r.Some? ==> |r.value.rest| < |s|
    decreases |s|, 1
  {
    if s == "" || s[0] != '<' then None
    else
      var n := NameSpan(s[1..]);
      if n == 0 then None
      else match ReadAttrs(s[1 + n..])
           case None => None
           case Some(attrs) =>
             match ReadText(attrs.rest, '<')
             case None => None
             case Some(text) =>
               match ReadElements(text.rest)
               case None => None
               case Some(kids) =>
                 var end := CloseTag(s[1..1 + n]);
                 if !(end <= kids.rest) then None
                 else Some(Read(Elem(s[1..1 + n], attrs.value, text.value, kids.value), kids.rest[|end|..]))
  }

  /** Elements up to a closing tag, which is left unread. */
  function ReadElements(s: string): (r: Option<Read<seq<Xml>>>)
    ensures r.Some? ==> |r.value.rest| <= |s|
    decreases |s|, 2
  {
    if "</" <= s then Some(Read([], s))
    else match ReadElement(s)
         case None => None
         case Some(x) => match ReadElements(x.rest)
                         case None => None
                         case Some(more) => Some(Read([x.value] + more.value, more.rest))
  }

  const PROLOG := "<?xml version=\"1.0\" encoding=\"UTF-8\"?>\n"

  datatype XmlError = NotWellFormed

  /** The document element of a text; not well-formed when a character is not allowed. */
  function ReadDocument(s: string): Result<Xml, XmlError> {
    if !IsLegal(s) then Err(NotWellFormed)
    else
      var t := Eol(s);
      if !(PROLOG <= t) then Err(NotWellFormed)
      else match ReadElement(t[|PROLOG|..])
           case None => Err(NotWellFormed)
           case Some(x) => if x.rest == "" then Ok(x.value) else Err(NotWellFormed)
  }

  // ---------- Reading back one piece ----------

  lemma Assoc(a: string, b: string, c: string)
    ensures (a + b) + c == a + (b + c)
  {
  }

  lemma {:induction false} NameSpanOf(name: string, rest: string)
    requires (forall i :: 0 <= i < |name| ==> IsNameChar(name[i])) && (rest == "" || !IsNameChar(rest[0]))
    ensures NameSpan(name + rest) == |name|
  {
    if name == "" {
      assert name + rest == rest;
    } else {
      assert (name + rest)[1..] == name[1..] + rest;
      NameSpanOf(name[1..], rest);
    }
  }

  lemma ReadEscapedChar(c: char, rest: string)
    ensures ReadChar(EscapeChar(c) + rest) == Some(Read(c, rest))
  {
    var s := EscapeChar(c) + rest;
    assert s[|EscapeChar(c)|..] == rest;
    if c == '&' {
      assert "&amp;" <= s;
    } else if c == '<' {
      assert s[1] == 'l' && "&lt;" <= s;
      assert "&amp;"[1] == 'a';
    } else if c == '>' {
      assert s[1] == 'g' && "&gt;" <= s;
      assert "&amp;"[1] == 'a' && "&lt;"[1] == 'l';
    } else if c == '"' {
      assert s[1] == 'q' && "&quot;" <= s;
      assert "&amp;"[1] == 'a' && "&lt;"[1] == 'l' && "&gt;"[1] == 'g';
    } else if c == '\'' {
      assert s[1] == 'a' && s[2] == 'p' && "&apos;" <= s;
      assert "&amp;"[2] == 'm' && "&lt;"[1] == 'l' && "&gt;"[1] == 'g' && "&quot;"[1] == 'q';
    }
  }

  /** Escaped text reads back as the text. */
  lemma {:induction false} ReadEscaped(text: string, rest: string, stop: char)
    requires rest != "" && rest[0] == stop && (stop == '<' || stop == '"')
    ensures ReadText(Escape(text) + rest, stop) == Some(Read(text, rest))
  {
    if text == "" {
      assert Escape(text) + rest == rest;
    } else {
      var c, tail := text[0], Escape(text[1..]) + rest;
      ReadEscaped(text[1..], rest, stop);
      ReadEscapedChar(c, tail);
      Assoc(EscapeChar(c), Escape(text[1..]), rest);
      assert (EscapeChar(c) + tail)[0] == EscapeChar(c)[0];
      assert EscapeChar(c)[0] != stop && EscapeChar(c)[0] != '<';
      hide ReadChar, EscapeChar;
      assert text == [c] + text[1..];
    }
  }

  predicate WellNamed(attrs: seq<Attr>) {
    forall i :: 0 <= i < |attrs| ==> IsName(attrs[i].name)
  }

  function SpacedAttrs(attrs: seq<Attr>): (r: seq<Attr>)
    ensures |r| == |attrs|
  {
    seq(|attrs|, i requires 0 <= i < |attrs| => Attr(attrs[i].name, Spaced(attrs[i].value)))
  }

  lemma Cut(a: string, b: string)
    ensures (a + b)[..|a|] == a && (a + b)[|a|..] == b && a <= a + b
    ensures a != "" ==> (a + b)[0] == a[0]
  {
  }

  lemma AttrText(a: Attr, more: string)
    ensures PrintAttr(a) + more == " " + (a.name + ("=\"" + (Escape(a.value) + ("\"" + more))))
  {
    hide Escape;
    var z := Escape(a.value) + "\"";
    Assoc(" ", a.name + ("=\"" + z), more);
    Assoc(a.name, "=\"" + z, more);
    Assoc("=\"", z, more);
    Assoc(Escape(a.value), "\"", more);
  }

  /** One step of `ReadAttrs` on a text cut into its parts. */
  lemma ReadAttrStep(name: string, escaped: string, more: string, value: string)
    requires IsName(name) && ReadText(escaped + ("\"" + more), '"') == Some(Read(value, "\"" + more))
    ensures ReadAttrs(" " + (name + ("=\"" + (escaped + ("\"" + more)))))
            == match ReadAttrs(more)
               case None => None
               case Some(r) => Some(Read([Attr(name, Spaced(value))] + r.value, r.rest))
  {
    hide ReadText, Spaced;
    var value' := escaped + ("\"" + more);
    var after := "=\"" + value';
    var s := " " + (name + after);
    Cut(" ", name + after);
    Cut(name, after);
    Cut("=\"", value');
    Cut("\"", more);
    NameSpanOf(name, after);
    hide NameSpan;
    assert s[1..] == name + after && s[1..1 + |name|] == name && s[1 + |name|..] == after;
  }

  lemma ReadOneAttr(a: Attr, more: string)
    requires IsName(a.name)
    ensures ReadAttrs(PrintAttr(a) + more) == match ReadAttrs(more)
                                              case None => None
                                              case Some(r) => Some(Read([Attr(a.name, Spaced(a.value))] + r.value, r.rest))
  {
    AttrText(a, more);
    Cut("\"", more);
    ReadEscaped(a.value, "\"" + more, '"');
    ReadAttrStep(a.name, Escape(a.value), more, a.value);
  }

  lemma SpacedCons(attrs: seq<Attr>)
    requires attrs != []
    ensures SpacedAttrs(attrs) == [Attr(attrs[0].name, Spaced(attrs[0].value))] + SpacedAttrs(attrs[1..])
  {
    hide Spaced;
  }

  lemma ReadNoAttrs(rest: string)
    ensures ReadAttrs("" + (">" + rest)) == Some(Read([], rest))
  {
    assert "" + (">" + rest) == ">" + rest;
    Cut(">", rest);
  }

  lemma {:induction false} ReadPrintedAttrs(attrs: seq<Attr>, rest: string)
    requires WellNamed(attrs)
    ensures ReadAttrs(PrintAttrs(attrs) + (">" + rest)) == Some(Read(SpacedAttrs(attrs), rest))
  {
    if attrs == [] {
      ReadNoAttrs(rest);
    } else {
      var more := PrintAttrs(attrs[1..]) + (">" + rest);
      ReadPrintedAttrs(attrs[1..], rest);
      ReadOneAttr(attrs[0], more);
      SpacedCons(attrs);
      Assoc(PrintAttr(attrs[0]), PrintAttrs(attrs[1..]), ">" + rest);
      hide ReadAttrs, PrintAttr, SpacedAttrs;
    }
  }

  // ---------- Reading back an element ----------

  ghost predicate WellFormed(x: Xml)
    decreases x, 1
  {
    IsName(x.name) && WellNamed(x.attrs) && AllWellFormed(x.kids)
  }

  ghost predicate AllWellFormed(kids: seq<Xml>)
    decreases kids, 0
  {
    kids == [] || (WellFormed(kids[0]) && AllWellFormed(kids[1..]))
  }

  /** The element as read: white space in attribute values is spaces. */
  function Normal(x: Xml): Xml
    decreases x, 1
  {
    Elem(x.name, SpacedAttrs(x.attrs), x.text, AllNormal(x.kids))
  }

  function AllNormal(kids: seq<Xml>): seq<Xml>
    decreases kids, 0
  {
    if kids == [] then [] else [Normal(kids[0])] + AllNormal(kids[1..])
  }

  /** What follows the attributes of a printed element. */
  function Inner(x: Xml, rest: string): string {
    Escape(x.text) + (PrintAll(x.kids) + (CloseTag(x.name) + rest))
  }

  lemma PrintedText(x: Xml, rest: string)
    ensures Print(x) + rest == "<" + (x.name + (PrintAttrs(x.attrs) + (">" + Inner(x, rest))))
  {
    hide Escape, PrintAll, CloseTag, PrintAttrs;
    var close := CloseTag(x.name);
    var a, t, k := PrintAttrs(x.attrs), Escape(x.text), PrintAll(x.kids);
    Assoc(OpenTag(x), t + (k + close), rest);
    Assoc(t, k + close, rest);
    Assoc(k, close, rest);
    Assoc("<", x.name + (a + ">"), Inner(x, rest));
    Assoc(x.name, a + ">", Inner(x, rest));
    Assoc(a, ">", Inner(x, rest));
  }

  /** One step of `ReadElement` on a text cut into its parts. */
  lemma ReadElementStep(name: string, after: string, attrs: Read<seq<Attr>>, text: Read<string>, kids: Read<seq<Xml>>, rest: string)
    requires IsName(name) && after != "" && !IsNameChar(after[0])
    requires ReadAttrs(after) == Some(attrs) && ReadText(attrs.rest, '<') == Some(text)
    requires ReadElements(text.rest) == Some(kids) && kids.rest == CloseTag(name) + rest
    ensures ReadElement("<" + (name + after)) == Some(Read(Elem(name, attrs.value, text.value, kids.value), rest))
  {
    var s := "<" + (name + after);
    Cut("<", name + after);
    Cut(name, after);
    Cut(CloseTag(name), rest);
    NameSpanOf(name, after);
    hide NameSpan, ReadAttrs, ReadText, ReadElements, CloseTag;
    assert s[1..] == name + after && s[1..1 + |name|] == name && s[1 + |name|..] == after;
  }

  lemma AfterName(attrs: seq<Attr>, inner: string)
    ensures var after := PrintAttrs(attrs) + (">" + inner); after != "" && !IsNameChar(after[0])
  {
    if attrs == [] {
      assert PrintAttrs(attrs) == "";
    } else {
      assert PrintAttrs(attrs)[0] == ' ';
    }
  }

  lemma KidsStart(kids: seq<Xml>, rest: string)
    requires rest != "" && rest[0] == '<'
    ensures var s := PrintAll(kids) + rest; s != "" && s[0] == '<'
  {
    if kids != [] {
      PrintedText(kids[0], PrintAll(kids[1..]));
      Cut("<", kids[0].name + (PrintAttrs(kids[0].attrs) + (">" + Inner(kids[0], PrintAll(kids[1..])))));
    }
    hide Print;
  }

  lemma CloseStart(name: string, rest: string)
    ensures CloseTag(name) + rest == "</" + ((name + ">") + rest) && (CloseTag(name) + rest)[0] == '<' && "</" <= CloseTag(name) + rest
  {
    Assoc("</", name + ">", rest);
    Cut("</", (name + ">") + rest);
  }

  lemma {:induction false} ReadPrinted(x: Xml, rest: string)
    requires WellFormed(x)
    ensures ReadElement(Print(x) + rest) == Some(Read(Normal(x), rest))
    decreases x, 1
  {
    var kids := PrintAll(x.kids) + (CloseTag(x.name) + rest);
    CloseStart(x.name, rest);
    KidsStart(x.kids, CloseTag(x.name) + rest);
    PrintedText(x, rest);
    ReadPrintedAttrs(x.attrs, Inner(x, rest));
    AfterName(x.attrs, Inner(x, rest));
    ReadEscaped(x.text, kids, '<');
    ReadAllPrinted(x.kids, (x.name + ">") + rest);
    hide Print, PrintAttrs, PrintAll, Escape, ReadAttrs, ReadText, ReadElements, ReadElement, CloseTag;
    ReadElementStep(x.name, PrintAttrs(x.attrs) + (">" + Inner(x, rest)), Read(SpacedAttrs(x.attrs), Inner(x, rest)),
                    Read(x.text, kids), Read(AllNormal(x.kids), CloseTag(x.name) + rest), rest);
  }

  lemma NotClosing(x: Xml, rest: string)
    requires IsName(x.name)
    ensures !("</" <= Print(x) + rest)
  {
    PrintedText(x, rest);
    var after := PrintAttrs(x.attrs) + (">" + Inner(x, rest));
    hide Print, PrintAttrs;
    Cut("<", x.name + after);
    Cut(x.name, after);
    assert ("<" + (x.name + after))[1] == x.name[0] && IsNameChar(x.name[0]);
  }

  lemma ElementsEnd(rest: string)
    requires "</" <= rest
    ensures ReadElements("" + rest) == Some(Read([], rest))
  {
    assert "" + rest == rest;
  }

  lemma ReadElementsStep(s: string, x: Read<Xml>, more: Read<seq<Xml>>)
    requires !("</" <= s) && ReadElement(s) == Some(x) && ReadElements(x.rest) == Some(more)
    ensures ReadElements(s) == Some(Read([x.value] + more.value, more.rest))
  {
    hide ReadElement;
  }

  lemma {:induction false} ReadAllPrinted(kids: seq<Xml>, rest: string)
    requires AllWellFormed(kids)
    ensures ReadElements(PrintAll(kids) + ("</" + rest)) == Some(Read(AllNormal(kids), "</" + rest))
    decreases kids, 0
  {
    var close := "</" + rest;
    if kids == [] {
      Cut("</", rest);
      ElementsEnd(close);
    } else {
      var tail := PrintAll(kids[1..]) + close;
      ReadPrinted(kids[0], tail);
      ReadAllPrinted(kids[1..], rest);
      NotClosing(kids[0], tail);
      Assoc(Print(kids[0]), PrintAll(kids[1..]), close);
      hide Print, ReadElement, ReadElements, Normal;
      ReadElementsStep(Print(kids[0]) + tail, Read(Normal(kids[0]), tail), Read(AllNormal(kids[1..]), close));
    }
  }

  // ---------- Line breaks ----------

  lemma {:induction false} EolConcat(a: string, b: string)
    requires a == "" || a[|a| - 1] != '\r' || b == "" || b[0] != '\n'
    ensures Eol(a + b) == Eol(a) + Eol(b)
    decreases |a|
  {
    if a == "" {
      assert a + b == b;
    } else if a[0] != '\r' {
      assert (a + b)[1..] == a[1..] + b;
      EolConcat(a[1..], b);
    } else if |a| > 1 && a[1] == '\n' {
      assert (a + b)[2..] == a[2..] + b;
      EolConcat(a[2..], b);
    } else {
      assert (a + b)[1..] == a[1..] + b;
      assert |a + b| > 1 ==> (a + b)[1] == if |a| > 1 then a[1] else b[0];
      EolConcat(a[1..], b);
    }
  }

  lemma {:induction false} EolPlain(s: string)
    requires '\r' !in s
    ensures Eol(s) == s
  {
    if s != "" {
      EolPlain(s[1..]);
    }
  }

  /** A value is read back unchanged exactly when it has no carriage return. */
  lemma {:induction false} EolIsIdentity(s: string)
    ensures Eol(s) == s <==> '\r' !in s
    ensures '\r' !in Eol(s) && (Eol(s) == "" <==> s == "")
    decreases |s|
  {
    if s != "" {
      if s[0] != '\r' {
        EolIsIdentity(s[1..]);
        assert s == [s[0]] + s[1..];
      } else if |s| > 1 && s[1] == '\n' {
        EolIsIdentity(s[2..]);
        assert Eol(s)[0] == '\n' && s[0] == '\r';
      } else {
        EolIsIdentity(s[1..]);
        assert Eol(s)[0] == '\n' && s[0] == '\r';
      }
    }
  }

  lemma EolLiteral(a: string, b: string)
    requires '\r' !in a
    ensures Eol(a + b) == a + Eol(b)
  {
    EolConcat(a, b);
    EolPlain(a);
  }

  lemma EscapedHasNoBreaks(c: char)
    requires c != '\r'
    ensures '\r' !in EscapeChar(c) && (c != '\n' ==> EscapeChar(c)[0] != '\n')
  {
  }

  lemma EscapeCons(c: char, t: string)
    ensures Escape([c] + t) == EscapeChar(c) + Escape(t)
  {
    assert ([c] + t)[1..] == t;
    hide EscapeChar;
  }

  lemma EscapeStart(t: string)
    ensures t == "" <==> Escape(t) == ""
    ensures t != "" ==> (Escape(t)[0] == '\n' <==> t[0] == '\n')
  {
  }

  /** A carriage return and a line feed, escaped and normalised. */
  lemma EolEscapePair(t: string)
    requires |t| > 1 && t[0] == '\r' && t[1] == '\n'
    ensures Eol(Escape(t)) == "\n" + Eol(Escape(t[2..]))
  {
    EscapeCons('\r', t[1..]);
    EscapeCons('\n', t[2..]);
    assert t == ['\r'] + t[1..] && t[1..] == ['\n'] + t[2..];
    hide Escape;
    var e := Escape(t);
    assert e == "\r" + ("\n" + Escape(t[2..]));
    assert e[0] == '\r' && e[1] == '\n' && e[2..] == Escape(t[2..]);
  }

  lemma EolEscapeReturn(t: string)
    requires t != "" && t[0] == '\r' && !(|t| > 1 && t[1] == '\n')
    ensures Eol(Escape(t)) == "\n" + Eol(Escape(t[1..]))
  {
    EscapeStart(t[1..]);
    EscapeCons('\r', t[1..]);
    assert t == ['\r'] + t[1..];
    hide Escape;
    var e := Escape(t);
    assert e[0] == '\r' && e[1..] == Escape(t[1..]);
  }

  /** Escaping and end-of-line handling commute. */
  lemma {:induction false} EolEscape(t: string)
    ensures Eol(Escape(t)) == Escape(Eol(t))
    decreases |t|
  {
    if t == "" {
    } else if t[0] != '\r' {
      EolEscape(t[1..]);
      EscapedHasNoBreaks(t[0]);
      EolLiteral(EscapeChar(t[0]), Escape(t[1..]));
      EscapeCons(t[0], Eol(t[1..]));
      hide EscapeChar;
    } else if |t| > 1 && t[1] == '\n' {
      EolEscape(t[2..]);
      EscapeCons('\n', Eol(t[2..]));
      EolEscapePair(t);
      hide Escape;
    } else {
      EolEscape(t[1..]);
      EscapeCons('\n', Eol(t[1..]));
      EolEscapeReturn(t);
      hide Escape;
    }
  }

  /** Escaped text before something that does not start with a line feed. */
  lemma EolText(t: string, b: string)
    requires b != "" && b[0] != '\n'
    ensures Eol(Escape(t) + b) == Escape(Eol(t)) + Eol(b)
  {
    EolConcat(Escape(t), b);
    EolEscape(t);
  }

  function EolAttrs(attrs: seq<Attr>): (r: seq<Attr>)
    ensures |r| == |attrs|
  {
    seq(|attrs|, i requires 0 <= i < |attrs| => Attr(attrs[i].name, Eol(attrs[i].value)))
  }

  /** The element with its line breaks normalised. */
  function EolTree(x: Xml): Xml
    decreases x, 1
  {
    Elem(x.name, EolAttrs(x.attrs), Eol(x.text), AllEol(x.kids))
  }

  function AllEol(kids: seq<Xml>): seq<Xml>
    decreases kids, 0
  {
    if kids == [] then [] else [EolTree(kids[0])] + AllEol(kids[1..])
  }

  lemma NameHasNoBreak(s: string)
    requires IsName(s)
    ensures '\r' !in s
  {
  }

  lemma EolAttr(a: Attr, b: string)
    requires IsName(a.name)
    ensures Eol(PrintAttr(a) + b) == PrintAttr(Attr(a.name, Eol(a.value))) + Eol(b)
  {
    AttrText(a, b);
    AttrText(Attr(a.name, Eol(a.value)), Eol(b));
    NameHasNoBreak(a.name);
    hide Escape, IsName, PrintAttr;
    var tail := "\"" + b;
    EolLiteral(" ", a.name + ("=\"" + (Escape(a.value) + tail)));
    EolLiteral(a.name, "=\"" + (Escape(a.value) + tail));
    EolLiteral("=\"", Escape(a.value) + tail);
    EolText(a.value, tail);
    EolLiteral("\"", b);
    hide Eol;
  }

  lemma EolAttrsCons(attrs: seq<Attr>)
    requires attrs != []
    ensures EolAttrs(attrs) == [Attr(attrs[0].name, Eol(attrs[0].value))] + EolAttrs(attrs[1..])
  {
    hide Eol;
  }

  lemma PrintAttrsCons(a: Attr, more: seq<Attr>)
    ensures PrintAttrs([a] + more) == PrintAttr(a) + PrintAttrs(more)
  {
    assert ([a] + more)[1..] == more;
    hide PrintAttr;
  }

  lemma {:induction false} EolPrintAttrs(attrs: seq<Attr>, b: string)
    requires WellNamed(attrs)
    ensures Eol(PrintAttrs(attrs) + b) == PrintAttrs(EolAttrs(attrs)) + Eol(b)
  {
    if attrs == [] {
      assert PrintAttrs(attrs) + b == b && PrintAttrs(EolAttrs(attrs)) + Eol(b) == Eol(b);
    } else {
      var first := Attr(attrs[0].name, Eol(attrs[0].value));
      EolPrintAttrs(attrs[1..], b);
      EolAttr(attrs[0], PrintAttrs(attrs[1..]) + b);
      EolAttrsCons(attrs);
      PrintAttrsCons(first, EolAttrs(attrs[1..]));
      Assoc(PrintAttr(attrs[0]), PrintAttrs(attrs[1..]), b);
      hide PrintAttr, Eol, EolAttrs;
      Assoc(PrintAttr(first), PrintAttrs(EolAttrs(attrs[1..])), Eol(b));
    }
  }

  lemma EolClose(name: string, rest: string)
    requires IsName(name)
    ensures Eol(CloseTag(name) + rest) == CloseTag(name) + Eol(rest)
  {
    NameHasNoBreak(name);
    hide IsName;
    assert '\r' !in "</" + (name + ">");
    EolLiteral(CloseTag(name), rest);
  }

  lemma {:induction false} EolPrint(x: Xml, rest: string)
    requires WellFormed(x)
    ensures Eol(Print(x) + rest) == Print(EolTree(x)) + Eol(rest)
    decreases x, 1
  {
    var close := CloseTag(x.name) + rest;
    var kids := PrintAll(x.kids) + close;
    PrintedText(x, rest);
    PrintedText(EolTree(x), Eol(rest));
    CloseStart(x.name, rest);
    KidsStart(x.kids, close);
    NameHasNoBreak(x.name);
    EolLiteral("<", x.name + (PrintAttrs(x.attrs) + (">" + Inner(x, rest))));
    EolLiteral(x.name, PrintAttrs(x.attrs) + (">" + Inner(x, rest)));
    EolPrintAttrs(x.attrs, ">" + Inner(x, rest));
    EolLiteral(">", Inner(x, rest));
    EolText(x.text, kids);
    EolPrintAll(x.kids, close);
    EolClose(x.name, rest);
    hide Print, PrintAttrs, PrintAll, Escape, Eol, EolAttrs, CloseTag, IsName, WellNamed, AllWellFormed, AllEol;
    assert EolTree(x).name == x.name && EolTree(x).attrs == EolAttrs(x.attrs);
    assert EolTree(x).text == Eol(x.text) && EolTree(x).kids == AllEol(x.kids);
  }

  lemma {:induction false} EolPrintAll(kids: seq<Xml>, rest: string)
    requires AllWellFormed(kids)
    ensures Eol(PrintAll(kids) + rest) == PrintAll(AllEol(kids)) + Eol(rest)
    decreases kids, 0
  {
    if kids == [] {
      assert PrintAll(kids) + rest == rest && PrintAll(AllEol(kids)) + Eol(rest) == Eol(rest);
    } else {
      EolPrint(kids[0], PrintAll(kids[1..]) + rest);
      EolPrintAll(kids[1..], rest);
      Assoc(Print(kids[0]), PrintAll(kids[1..]), rest);
      PrintAllCons(EolTree(kids[0]), AllEol(kids[1..]));
      hide Print, Eol, EolTree, WellFormed;
      Assoc(Print(EolTree(kids[0])), PrintAll(AllEol(kids[1..])), Eol(rest));
    }
  }

  lemma PrintAllCons(x: Xml, more: seq<Xml>)
    ensures PrintAll([x] + more) == Print(x) + PrintAll(more)
  {
    assert ([x] + more)[1..] == more;
    hide Print;
  }

  lemma {:induction false} EolTreeWellFormed(x: Xml)
    requires WellFormed(x)
    ensures WellFormed(EolTree(x))
    decreases x, 1
  {
    AllEolWellFormed(x.kids);
  }

  lemma {:induction false} AllEolWellFormed(kids: seq<Xml>)
    requires AllWellFormed(kids)
    ensures AllWellFormed(AllEol(kids))
    decreases kids, 0
  {
    if kids != [] {
      EolTreeWellFormed(kids[0]);
      AllEolWellFormed(kids[1..]);
      assert ([EolTree(kids[0])] + AllEol(kids[1..]))[1..] == AllEol(kids[1..]);
      hide WellFormed, EolTree;
    }
  }

  /**
   * A printed element reads back as itself, up to the normalisation of line breaks and of white space in
   * attribute values, exactly when every character is allowed in XML.
   */
  lemma PrintedDocumentReadsBack(x: Xml)
    requires WellFormed(x)
    ensures ReadDocument(PROLOG + Print(x)) == if IsLegal(PROLOG + Print(x)) then Ok(Normal(EolTree(x))) else Err(NotWellFormed)
  {
    assert '\r' !in PROLOG;
    EolLiteral(PROLOG, Print(x));
    EolPrint(x, "");
    assert Print(x) + "" == Print(x) && Print(EolTree(x)) + Eol("") == Print(EolTree(x));
    EolTreeWellFormed(x);
    ReadPrinted(EolTree(x), "");
    assert Print(EolTree(x)) + "" == Print(EolTree(x));
    Cut(PROLOG, Print(EolTree(x)));
    hide Eol, Print, ReadElement, IsLegal, EolTree, Normal;
  }

  // ---------- Which documents are legal ----------

  /** Every text and attribute value of the element and all below it is made of allowed characters. */
  predicate ValuesLegal(x: Xml)
    decreases x, 1
  {
    IsLegal(x.text) && (forall a :: a in x.attrs ==> IsLegal(a.value)) && AllValuesLegal(x.kids)
  }

  predicate AllValuesLegal(kids: seq<Xml>)
    decreases kids, 0
  {
    kids == [] || (ValuesLegal(kids[0]) && AllValuesLegal(kids[1..]))
  }

  lemma LegalConcat(a: string, b: string)
    ensures IsLegal(a + b) <==> IsLegal(a) && IsLegal(b)
  {
    assert forall i :: 0 <= i < |a| ==> (a + b)[i] == a[i];
    assert forall i :: 0 <= i < |b| ==> (a + b)[|a| + i] == b[i];
  }

  lemma PrologChar(i: nat)
    requires i < |PROLOG|
    ensures IsXmlChar(PROLOG[i])
  {
  }

  lemma PrologIsLegal()
    ensures IsLegal(PROLOG)
  {
    hide IsXmlChar;
    forall i | 0 <= i < |PROLOG| ensures IsXmlChar(PROLOG[i]) {
      PrologChar(i);
    }
  }

  lemma EscapeCharLegal(c: char)
    ensures IsLegal(EscapeChar(c)) <==> IsXmlChar(c)
  {
    assert EscapeChar(c)[0] == if c == '&' || c == '<' || c == '>' || c == '"' || c == '\'' then '&' else c;
  }

  lemma {:induction false} EscapeLegal(s: string)
    ensures IsLegal(Escape(s)) <==> IsLegal(s)
  {
    if s != "" {
      EscapeCharLegal(s[0]);
      EscapeLegal(s[1..]);
      LegalConcat(EscapeChar(s[0]), Escape(s[1..]));
      assert s == [s[0]] + s[1..];
      LegalConcat([s[0]], s[1..]);
      assert IsLegal([s[0]]) <==> IsXmlChar(s[0]) by {
        assert [s[0]][0] == s[0];
      }
      hide IsLegal, EscapeChar;
    }
  }

  lemma NameLegal(name: string)
    requires IsName(name)
    ensures IsLegal(name)
  {
  }

  lemma AttrLegal(a: Attr)
    requires IsName(a.name)
    ensures IsLegal(PrintAttr(a)) <==> IsLegal(a.value)
  {
    NameLegal(a.name);
    EscapeLegal(a.value);
    assert IsLegal(" ") && IsLegal("=\"") && IsLegal("\"");
    hide IsLegal, Escape;
    LegalConcat(Escape(a.value), "\"");
    LegalConcat("=\"", Escape(a.value) + "\"");
    LegalConcat(a.name, "=\"" + (Escape(a.value) + "\""));
    LegalConcat(" ", a.name + ("=\"" + (Escape(a.value) + "\"")));
  }

  lemma {:induction false} AttrsLegal(attrs: seq<Attr>)
    requires forall a :: a in attrs ==> IsName(a.name)
    ensures IsLegal(PrintAttrs(attrs)) <==> forall a :: a in attrs ==> IsLegal(a.value)
  {
    if attrs != [] {
      AttrLegal(attrs[0]);
      AttrsLegal(attrs[1..]);
      LegalConcat(PrintAttr(attrs[0]), PrintAttrs(attrs[1..]));
      hide IsLegal, PrintAttr, IsName;
      assert forall a :: a in attrs <==> a == attrs[0] || a in attrs[1..];
    }
  }

  lemma TagsLegal(x: Xml)
    requires IsName(x.name) && WellNamed(x.attrs)
    ensures IsLegal(OpenTag(x)) <==> forall a :: a in x.attrs ==> IsLegal(a.value)
    ensures IsLegal(CloseTag(x.name))
  {
    NameLegal(x.name);
    AttrsLegal(x.attrs);
    assert IsLegal("<") && IsLegal(">") && IsLegal("</");
    hide IsLegal, PrintAttrs;
    LegalConcat(PrintAttrs(x.attrs), ">");
    LegalConcat(x.name, PrintAttrs(x.attrs) + ">");
    LegalConcat("<", x.name + (PrintAttrs(x.attrs) + ">"));
    LegalConcat(x.name, ">");
    LegalConcat("</", x.name + ">");
  }

  /** The printed text is legal exactly when every value in it is. */
  lemma {:induction false} PrintIsLegalExactly(x: Xml)
    requires WellFormed(x)
    ensures IsLegal(Print(x)) <==> ValuesLegal(x)
    decreases x, 1
  {
    TagsLegal(x);
    EscapeLegal(x.text);
    AllPrintLegal(x.kids);
    hide IsLegal, OpenTag, Escape, PrintAll, CloseTag, AllValuesLegal;
    LegalConcat(PrintAll(x.kids), CloseTag(x.name));
    LegalConcat(Escape(x.text), PrintAll(x.kids) + CloseTag(x.name));
    LegalConcat(OpenTag(x), Escape(x.text) + (PrintAll(x.kids) + CloseTag(x.name)));
  }

  lemma {:induction false} AllPrintLegal(kids: seq<Xml>)
    requires AllWellFormed(kids)
    ensures IsLegal(PrintAll(kids)) <==> AllValuesLegal(kids)
    decreases kids, 0
  {
    if kids != [] {
      PrintIsLegalExactly(kids[0]);
      AllPrintLegal(kids[1..]);
      LegalConcat(Print(kids[0]), PrintAll(kids[1..]));
      hide IsLegal, Print, ValuesLegal;
    }
  }
}
