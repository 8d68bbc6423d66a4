/** The text `recurrenceKey` hashes (apps/web/modules/corpus/recurrence.ts), and what it determines. */
module Recurrence {
  import opened Base
  import opened Decimal
  import opened Shapes

  /** U+001F, the separator. */
  const SEP := '\U{001F}'

  function OrEmpty(o: Option<string>): string {
    if o.Some? then o.value else ""
  }

  /** `parts.join(SEP)`. */
  function Join(parts: seq<string>): string {
    if parts == [] then ""
    else if |parts| == 1 then parts[0]
    else parts[0] + [SEP] + Join(parts[1..])
  }

  function LengthText(len: Option<nat>): string {
    if len.Some? then Numeral(len.value) else ""
  }

  function CharsetOrEmpty(c: Option<Charset>): string {
    if c.Some? then CharsetText(c.value) else ""
  }

  function ShapeParts(shape: ValueShape): seq<string> {
    ["shape", LengthText(shape.len), CharsetOrEmpty(shape.charset), OrEmpty(shape.regexClass), OrEmpty(shape.expected)]
  }

  function CanonicaliseShape(shape: Option<ValueShape>): string {
    if shape.None? then "no-shape" else Join(ShapeParts(shape.value))
  }

  /** The text that is hashed. */
  function KeyText(entityHash: string, ruleId: Option<string>, xpath: Option<string>, shape: Option<ValueShape>): string {
    Join([entityHash, OrEmpty(ruleId), OrEmpty(xpath), CanonicaliseShape(shape)])
  }

  // ---------- Splitting the text back ----------

  predicate Free(s: string) {
    SEP !in s
  }

  function FirstSep(s: string): (n: nat)
    ensures n <= |s| && Free(s[..n]) && (n < |s| ==> s[n] == SEP)
  {
    if s == "" || s[0] == SEP then 0
    else
      var m := FirstSep(s[1..]);
      assert s[..m + 1] == [s[0]] + s[1..][..m];
      m + 1
  }

  function Split(s: string): (parts: seq<string>)
    ensures |parts| > 0
    decreases |s|
  {
    var n := FirstSep(s);
    if n == |s| then [s] else [s[..n]] + Split(s[n + 1..])
  }

  lemma {:induction false} FirstSepIs(a: string, rest: string)
    requires Free(a) && (rest == "" || rest[0] == SEP)
    ensures FirstSep(a + rest) == |a|
  {
    if a == "" {
      assert a + rest == rest;
    } else {
      assert (a + rest)[1..] == a[1..] + rest;
      FirstSepIs(a[1..], rest);
    }
  }

  /** Joining then splitting gives the parts back. */
  lemma {:induction false} SplitJoin(parts: seq<string>)
    requires parts != [] && forall i :: 0 <= i < |parts| ==> Free(parts[i])
    ensures Split(Join(parts)) == parts
  {
    var s := Join(parts);
    if |parts| == 1 {
      FirstSepIs(s, "");
      assert s + "" == s;
    } else {
      var rest := [SEP] + Join(parts[1..]);
      assert s == parts[0] + rest;
      FirstSepIs(parts[0], rest);
      assert s[..|parts[0]|] == parts[0] && s[|parts[0]| + 1..] == Join(parts[1..]);
      SplitJoin(parts[1..]);
    }
  }

  lemma {:induction false} JoinNested(front: seq<string>, inner: seq<string>)
    requires inner != []
    ensures Join(front + [Join(inner)]) == Join(front + inner)
  {
    if front == [] {
      assert [] + [Join(inner)] == [Join(inner)] && [] + inner == inner;
    } else {
      assert (front + [Join(inner)])[1..] == front[1..] + [Join(inner)];
      assert (front + inner)[1..] == front[1..] + inner;
      JoinNested(front[1..], inner);
    }
  }

  function KeyParts(entityHash: string, ruleId: Option<string>, xpath: Option<string>, shape: Option<ValueShape>): seq<string> {
    [entityHash, OrEmpty(ruleId), OrEmpty(xpath)] + if shape.None? then ["no-shape"] else ShapeParts(shape.value)
  }

  predicate FreeKey(entityHash: string, ruleId: Option<string>, xpath: Option<string>, shape: Option<ValueShape>) {
    && Free(entityHash) && Free(OrEmpty(ruleId)) && Free(OrEmpty(xpath))
    && (shape.Some? ==> Free(OrEmpty(shape.value.regexClass)) && Free(OrEmpty(shape.value.expected)))
  }

  /** For fields free of the separator, the hashed text splits back into its parts. */
  lemma KeyTextSplits(entityHash: string, ruleId: Option<string>, xpath: Option<string>, shape: Option<ValueShape>)
    requires FreeKey(entityHash, ruleId, xpath, shape)
    ensures Split(KeyText(entityHash, ruleId, xpath, shape)) == KeyParts(entityHash, ruleId, xpath, shape)
  {
    hide Split, Join, Free, Numeral, CharsetText;
    var front := [entityHash, OrEmpty(ruleId), OrEmpty(xpath)];
    assert [entityHash, OrEmpty(ruleId), OrEmpty(xpath), CanonicaliseShape(shape)] == front + [CanonicaliseShape(shape)];
    if shape.Some? {
      JoinNested(front, ShapeParts(shape.value));
    }
    PartsAreFree(entityHash, ruleId, xpath, shape);
    SplitJoin(KeyParts(entityHash, ruleId, xpath, shape));
  }

  lemma PartsAreFree(entityHash: string, ruleId: Option<string>, xpath: Option<string>, shape: Option<ValueShape>)
    requires FreeKey(entityHash, ruleId, xpath, shape)
    ensures forall i :: 0 <= i < |KeyParts(entityHash, ruleId, xpath, shape)| ==>
              Free(KeyParts(entityHash, ruleId, xpath, shape)[i])
  {
    assert Free("no-shape") && Free("shape") && Free("");
    if shape.Some? {
      NumeralIsFree(shape.value.len);
      assert Free(CharsetOrEmpty(shape.value.charset));
    }
    hide Free, Numeral, CharsetText;
  }

  lemma NumeralIsFree(len: Option<nat>)
    ensures Free(LengthText(len))
  {
  }

  /** Two shapes say the same once null text fields are read as empty. */
  predicate SameShape(a: Option<ValueShape>, b: Option<ValueShape>) {
    || (a.None? && b.None?)
    || (a.Some? && b.Some?
        && a.value.len == b.value.len && a.value.charset == b.value.charset
        && OrEmpty(a.value.regexClass) == OrEmpty(b.value.regexClass)
        && OrEmpty(a.value.expected) == OrEmpty(b.value.expected))
  }

  lemma KeyPartsDetermine(
    entity: string, rule: Option<string>, xpath: Option<string>, shape: Option<ValueShape>,
    entity': string, rule': Option<string>, xpath': Option<string>, shape': Option<ValueShape>)
    requires KeyParts(entity, rule, xpath, shape) == KeyParts(entity', rule', xpath', shape')
    ensures entity == entity' && OrEmpty(rule) == OrEmpty(rule') && OrEmpty(xpath) == OrEmpty(xpath') && SameShape(shape, shape')
  {
    var p, q := KeyParts(entity, rule, xpath, shape), KeyParts(entity', rule', xpath', shape');
    assert p[0] == entity && p[1] == OrEmpty(rule) && p[2] == OrEmpty(xpath);
    if shape.Some? && shape'.Some? {
      var a, b := shape.value, shape'.value;
      assert p[4] == LengthText(a.len) && p[5] == CharsetOrEmpty(a.charset);
      assert p[6] == OrEmpty(a.regexClass) && p[7] == OrEmpty(a.expected);
      LengthTextInjective(a.len, b.len);
      CharsetTextInjective(a.charset, b.charset);
    }
  }

  /**
   * For fields free of the separator, two inputs are hashed from one text exactly when entity, rule,
   * xpath and shape agree with null read as empty; a missing shape never coincides with a present one.
   */
  lemma KeyTextDetermines(
    entity: string, rule: Option<string>, xpath: Option<string>, shape: Option<ValueShape>,
    entity': string, rule': Option<string>, xpath': Option<string>, shape': Option<ValueShape>)
    requires FreeKey(entity, rule, xpath, shape) && FreeKey(entity', rule', xpath', shape')
    ensures KeyText(entity, rule, xpath, shape) == KeyText(entity', rule', xpath', shape') <==>
            && entity == entity' && OrEmpty(rule) == OrEmpty(rule') && OrEmpty(xpath) == OrEmpty(xpath')
            && SameShape(shape, shape')
  {
    hide Split, KeyText, Join, KeyParts, OrEmpty, SameShape, FreeKey;
    if KeyText(entity, rule, xpath, shape) == KeyText(entity', rule', xpath', shape') {
      KeyTextSplits(entity, rule, xpath, shape);
      KeyTextSplits(entity', rule', xpath', shape');
      KeyPartsDetermine(entity, rule, xpath, shape, entity', rule', xpath', shape');
    } else if entity == entity' && OrEmpty(rule) == OrEmpty(rule') && OrEmpty(xpath) == OrEmpty(xpath')
              && SameShape(shape, shape') {
      SameKeyText(entity, rule, xpath, shape, rule', xpath', shape');
      assert false;
    }
  }

  lemma SameKeyText(entity: string, rule: Option<string>, xpath: Option<string>, shape: Option<ValueShape>,
                    rule': Option<string>, xpath': Option<string>, shape': Option<ValueShape>)
    requires OrEmpty(rule) == OrEmpty(rule') && OrEmpty(xpath) == OrEmpty(xpath') && SameShape(shape, shape')
    ensures KeyText(entity, rule, xpath, shape) == KeyText(entity, rule', xpath', shape')
  {
    hide Join;
    assert shape.Some? ==> ShapeParts(shape.value) == ShapeParts(shape'.value);
  }

  lemma LengthTextInjective(a: Option<nat>, b: Option<nat>)
    requires LengthText(a) == LengthText(b)
    ensures a == b
  {
    if a.Some? && b.Some? {
      NumeralInjective(a.value, b.value);
    }
  }

  lemma CharsetTextInjective(a: Option<Charset>, b: Option<Charset>)
    requires CharsetOrEmpty(a) == CharsetOrEmpty(b)
    ensures a == b
  {
    if a.Some? && b.Some? {
      var s := CharsetText(a.value);
      assert s[1] == CharsetText(b.value)[1];
      assert |s| == |CharsetText(b.value)|;
    }
  }

  /** The fields a derived shape fills in itself never contain the separator. */
  lemma {:induction false} SignatureIsFree(runs: seq<Run>)
    ensures Free(Print(runs))
  {
    if runs != [] {
      SignatureIsFree(runs[..|runs| - 1]);
      RunIsFree(runs[|runs| - 1]);
      hide PrintRun;
    }
  }

  lemma RunIsFree(r: Run)
    ensures Free(PrintRun(r))
  {
    NumeralIsFree(Some(r.count));
    assert Free(ClassText(r.cls));
    hide Numeral, ClassText;
  }

  /** Without the restriction the key is ambiguous: an xpath holding the separator reads as two fields. */
  lemma SeparatorInFieldCollides()
    ensures KeyText("e", Some("r" + [SEP]), None, None) == KeyText("e", Some("r"), Some("" + [SEP]), None)
  {
    var tail := [SEP] + "no-shape";
    assert Join(["", "no-shape"]) == tail && Join(["" + [SEP], "no-shape"]) == [SEP] + tail;
    JoinCons("r" + [SEP], ["", "no-shape"]);
    JoinCons("r", ["" + [SEP], "no-shape"]);
    JoinCons("e", ["r" + [SEP], "", "no-shape"]);
    JoinCons("e", ["r", "" + [SEP], "no-shape"]);
    assert "r" + [SEP] + [SEP] + tail == "r" + [SEP] + ([SEP] + tail);
  }

  lemma JoinCons(first: string, rest: seq<string>)
    requires rest != []
    ensures Join([first] + rest) == first + [SEP] + Join(rest)
  {
    assert ([first] + rest)[1..] == rest;
  }
}
