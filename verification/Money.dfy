/** The string operations of ECMAScript that the web application relies on. */
module JsText {

  /** WhiteSpace and LineTerminator of ECMAScript: what `trim` strips and `\s` matches. */
  predicate IsSpace(c: char) {
    || '\t' <= c <= '\r'
    || c == ' ' || c == '\U{00A0}' || c == '\U{1680}'
    || '\U{2000}' <= c <= '\U{200A}'
    || c == '\U{2028}' || c == '\U{2029}' || c == '\U{202F}' || c == '\U{205F}'
    || c == '\U{3000}' || c == '\U{FEFF}'
  }

  function TrimStart(s: string): string {
    if |s| > 0 && IsSpace(s[0]) then TrimStart(s[1..]) else s
  }

  function TrimEnd(s: string): string {
    if |s| > 0 && IsSpace(s[|s| - 1]) then TrimEnd(s[..|s| - 1]) else s
  }

  function Trim(s: string): string {
    TrimEnd(TrimStart(s))
  }

  /** `s.replace(/c/g, '')`. */
  function Without(s: string, c: char): string {
    if s == "" then "" else if s[0] == c then Without(s[1..], c) else [s[0]] + Without(s[1..], c)
  }

  lemma {:induction false} WithoutAbsent(s: string, c: char)
    requires c !in s
    ensures Without(s, c) == s
  {
    if s != "" {
      WithoutAbsent(s[1..], c);
    }
  }

  lemma TrimTight(s: string)
    requires |s| > 0 ==> !IsSpace(s[0]) && !IsSpace(s[|s| - 1])
    ensures Trim(s) == s
  {
  }

  /** `toUpperCase` as far as it can produce an ASCII letter; every other character stays non-ASCII. */
  function Upper(c: char): char {
    if 'a' <= c <= 'z' then (c as int - 32) as char
    else if c == '\U{0131}' then 'I'
    else if c == '\U{017F}' then 'S'
    else c
  }

  function UpperCase(s: string): string {
    seq(|s|, i requires 0 <= i < |s| => Upper(s[i]))
  }
}

/** Decimal amounts and minor units (apps/web/modules/ingestion/money.ts). */
module Money {
  import opened Base
  import opened Decimal
  import opened JsText

  datatype MoneyError = UnknownCurrency | MalformedAmount

  const MINOR_UNIT_EXPONENT: map<string, nat> := map[
    "AED" := 2, "BHD" := 3, "EUR" := 2, "GBP" := 2, "INR" := 2,
    "OMR" := 3, "PLN" := 2, "SAR" := 2, "USD" := 2
  ]

  /** Number.MAX_SAFE_INTEGER. */
  const MAX_SAFE := 9007199254740991

  predicate IsSafe(n: int) {
    -MAX_SAFE <= n <= MAX_SAFE
  }

  function MinorUnitExponent(currency: string): Result<nat, MoneyError> {
    var code := UpperCase(currency);
    if code in MINOR_UNIT_EXPONENT then Ok(MINOR_UNIT_EXPONENT[code]) else Err(UnknownCurrency)
  }

  /** The three groups of the amount pattern: sign, whole digits, and fraction digits after a point. */
  datatype Amount = Amount(negative: bool, whole: string, fraction: string)

  /** `/^([+-]?)(\d*)(?:\.(\d*))?$/`, refusing a match with no digit at all. */
  function MatchAmount(s: string): (r: Option<Amount>)
    ensures r.Some? ==> AllDigits(r.value.whole) && AllDigits(r.value.fraction)
    ensures r.Some? ==> |r.value.whole| + |r.value.fraction| > 0
  {
    var negative := |s| > 0 && s[0] == '-';
    var body := if |s| > 0 && (s[0] == '-' || s[0] == '+') then s[1..] else s;
    var n := DigitSpan(body);
    var whole, rest := body[..n], body[n..];
    if rest == "" then
      if whole == "" then None else Some(Amount(negative, whole, ""))
    else if rest[0] == '.' && AllDigits(rest[1..]) && |whole| + |rest| > 1 then
      Some(Amount(negative, whole, rest[1..]))
    else None
  }

  function StripTrailingZeros(s: string): (r: string)
    ensures |r| <= |s|
  {
    if |s| > 0 && s[|s| - 1] == '0' then StripTrailingZeros(s[..|s| - 1]) else s
  }

  /** `fraction.padEnd(exponent, '0').slice(0, exponent)`. */
  function FitFraction(fraction: string, exponent: nat): (r: string)
    ensures |r| == exponent
    ensures AllDigits(fraction) ==> AllDigits(r)
  {
    (fraction + Zeros(if |fraction| < exponent then exponent - |fraction| else 0))[..exponent]
  }

  function Signed(negative: bool, v: nat): int {
    var w: int := v;
    if negative then -w else w
  }

  /** `toMinor` once the exponent is known. */
  function Scale(decimal: string, exponent: nat): Result<int, MoneyError> {
    match MatchAmount(Without(Trim(decimal), ','))
    case None => Err(MalformedAmount)
    case Some(a) =>
      if |StripTrailingZeros(a.fraction)| > exponent then Err(MalformedAmount)
      else
        var joined := a.whole + FitFraction(a.fraction, exponent);
        var value := Value(if joined == "" then "0" else joined);
        if !IsSafe(value) then Err(MalformedAmount) else Ok(Signed(a.negative, value))
  }

  function ToMinor(decimal: string, currency: string): Result<int, MoneyError> {
    match MinorUnitExponent(currency)
    case Err(e) => Err(e)
    case Ok(exponent) => Scale(decimal, exponent)
  }

  datatype Tried = Minor(minor: int) | Failed(reason: MoneyError)

  /** `tryToMinor`: a missing or blank amount is malformed whatever the currency. */
  function TryToMinor(decimal: Option<string>, currency: string): Tried {
    if decimal.None? || Trim(decimal.value) == "" then Failed(MalformedAmount)
    else match ToMinor(decimal.value, currency)
         case Ok(n) => Minor(n)
         case Err(e) => Failed(e)
  }

  function PadStart(s: string, width: nat): string {
    Zeros(if |s| < width then width - |s| else 0) + s
  }

  /** An amount written out: sign, whole digits, and either nothing or a point with fraction digits. */
  function Written(negative: bool, whole: string, tail: string): string {
    (if negative then "-" else "") + (whole + tail)
  }

  function MinorText(minor: int, exponent: nat): string {
    var digits := PadStart(Numeral(if minor < 0 then -minor else minor), exponent + 1);
    Written(minor < 0, digits[..|digits| - exponent],
            if exponent == 0 then "" else "." + digits[|digits| - exponent..])
  }

  function MinorToDecimal(minor: int, currency: string): Result<string, MoneyError> {
    match MinorUnitExponent(currency)
    case Err(e) => Err(e)
    case Ok(exponent) => Ok(MinorText(minor, exponent))
  }

  // ---------- What an amount string denotes ----------

  /** A decimal string denotes mantissa / 10^scale. */
  datatype Rational = Rational(mantissa: int, scale: nat)

  /** Where a reader of an amount stands: blanks only, commas too, a sign or digits, past the point, blanks again. */
  datatype Stage = Leading | Unsigned | Started | Fraction | Trailing

  datatype Reading = Reading(stage: Stage, negative: bool, mantissa: nat, digits: nat, scale: nat)

  const NOTHING_READ := Reading(Leading, false, 0, 0, 0)

  /** One character: blanks around, commas anywhere between them, one sign before all digits, one point. */
  function ReadOn(r: Reading, c: char): Option<Reading> {
    if IsSpace(c) then Some(if r.stage.Leading? then r else r.(stage := Trailing))
    else if r.stage.Trailing? then None
    else if c == ',' then Some(if r.stage.Leading? then r.(stage := Unsigned) else r)
    else if c == '+' || c == '-' then
      if r.stage.Leading? || r.stage.Unsigned? then Some(r.(stage := Started, negative := c == '-')) else None
    else if c == '.' then if r.stage.Fraction? then None else Some(r.(stage := Fraction))
    else if IsDigit(c) then
      Some(Reading(if r.stage.Fraction? then Fraction else Started, r.negative, 10 * r.mantissa + DigitValue(c), r.digits + 1,
                   if r.stage.Fraction? then r.scale + 1 else r.scale))
    else None
  }

  function ReadAll(s: string, r: Reading): Option<Reading> {
    if s == "" then Some(r)
    else match ReadOn(r, s[0])
         case None => None
         case Some(next) => ReadAll(s[1..], next)
  }

  /** What a string of characters denotes, read from left to right; nothing without a digit. */
  function Denotation(decimal: string): Option<Rational> {
    Denoted(ReadAll(decimal, NOTHING_READ))
  }

  function Denoted(r: Option<Reading>): Option<Rational> {
    if r.None? || r.value.digits == 0 then None else Some(Rational(Signed(r.value.negative, r.value.mantissa), r.value.scale))
  }

  /** The same through trimming, removing commas and matching the pattern, as `toMinor` does it. */
  function Matched(decimal: string): Option<Rational> {
    OfAmount(MatchAmount(Without(Trim(decimal), ',')))
  }

  function OfAmount(a: Option<Amount>): Option<Rational>
    requires a.Some? ==> AllDigits(a.value.whole) && AllDigits(a.value.fraction)
  {
    match a
    case None => None
    case Some(a) =>
      assert AllDigits(a.whole + a.fraction);
      Some(Rational(Signed(a.negative, Value(a.whole + a.fraction)), |a.fraction|))
  }

  // ---------- The two ways of reading are one ----------

  lemma {:induction false} ReadConcat(a: string, b: string, r: Reading)
    ensures ReadAll(a + b, r) == match ReadAll(a, r) case None => None case Some(next) => ReadAll(b, next)
  {
    if a == "" {
      assert a + b == b;
    } else {
      assert (a + b)[1..] == a[1..] + b;
      if ReadOn(r, a[0]).Some? {
        ReadConcat(a[1..], b, ReadOn(r, a[0]).value);
      }
      hide ReadOn;
    }
  }

  predicate AllSpaces(s: string) {
    forall i :: 0 <= i < |s| ==> IsSpace(s[i])
  }

  lemma {:induction false} ReadBlanks(s: string, r: Reading)
    requires AllSpaces(s)
    ensures ReadAll(s, r) == Some(if s == "" || r.stage.Leading? then r else r.(stage := Trailing))
  {
    if s != "" {
      ReadBlanks(s[1..], if r.stage.Leading? then r else r.(stage := Trailing));
      hide IsSpace;
    }
  }

  /** Blanks at the start and at the end are part of no amount. */
  lemma BlanksAround(left: string, s: string, right: string)
    requires AllSpaces(left) && AllSpaces(right)
    ensures Denotation(left + s + right) == Denotation(s)
  {
    hide AllSpaces, ReadAll;
    ReadConcat(left + s, right, NOTHING_READ);
    ReadConcat(left, s, NOTHING_READ);
    ReadBlanks(left, NOTHING_READ);
    if ReadAll(s, NOTHING_READ).Some? {
      ReadBlanks(right, ReadAll(s, NOTHING_READ).value);
    }
  }

  /** `trim` takes all blanks off both ends. */
  lemma {:induction false} TrimSplits(s: string) returns (left: string, right: string)
    ensures s == left + Trim(s) + right && AllSpaces(left) && AllSpaces(right)
    ensures Trim(s) != "" ==> !IsSpace(Trim(s)[0]) && !IsSpace(Last(Trim(s)))
  {
    left := StartSplits(s);
    right := EndSplits(TrimStart(s));
    assert s == left + TrimStart(s);
    assert left + (Trim(s) + right) == left + Trim(s) + right;
  }

  function Last(s: string): char
    requires s != ""
  {
    s[|s| - 1]
  }

  lemma {:induction false} StartSplits(s: string) returns (left: string)
    ensures s == left + TrimStart(s) && AllSpaces(left)
    ensures TrimStart(s) != "" ==> !IsSpace(TrimStart(s)[0])
  {
    left := "";
    if |s| > 0 && IsSpace(s[0]) {
      left := StartSplits(s[1..]);
      assert s == [s[0]] + s[1..];
      left := [s[0]] + left;
    }
    hide IsSpace;
  }

  lemma {:induction false} EndSplits(s: string) returns (right: string)
    ensures s == TrimEnd(s) + right && AllSpaces(right)
    ensures TrimEnd(s) != "" ==> !IsSpace(Last(TrimEnd(s))) && TrimEnd(s)[0] == s[0]
  {
    right := "";
    if |s| > 0 && IsSpace(s[|s| - 1]) {
      right := EndSplits(s[..|s| - 1]);
      assert s == s[..|s| - 1] + [s[|s| - 1]];
      right := right + [s[|s| - 1]];
    }
    hide IsSpace;
  }

  predicate NoSpace(s: string) {
    forall i :: 0 <= i < |s| ==> !IsSpace(s[i])
  }

  /** Readings that go on alike as long as no blank comes. */
  predicate Alike(a: Reading, b: Reading) {
    a == b || ((a.stage.Leading? || a.stage.Unsigned?) && (b.stage.Leading? || b.stage.Unsigned?) && a.(stage := b.stage) == b)
  }

  lemma OneAlike(a: Reading, b: Reading, c: char)
    requires Alike(a, b) && !IsSpace(c)
    ensures ReadOn(a, c).Some? <==> ReadOn(b, c).Some?
    ensures ReadOn(a, c).Some? ==> Alike(ReadOn(a, c).value, ReadOn(b, c).value)
  {
    hide IsSpace;
  }

  /** Commas between blank-free characters change nothing. */
  lemma {:induction false} CommasAreSkipped(s: string, a: Reading, b: Reading)
    requires NoSpace(s) && Alike(a, b) && !a.stage.Trailing?
    ensures Denoted(ReadAll(s, a)) == Denoted(ReadAll(Without(s, ','), b))
  {
    if s != "" {
      hide ReadOn, IsSpace;
      var rest := Without(s[1..], ',');
      if s[0] == ',' {
        CommaKeeps(a);
        CommasAreSkipped(s[1..], ReadOn(a, ',').value, b);
      } else {
        OneAlike(a, b, s[0]);
        assert ([s[0]] + rest)[1..] == rest;
        if ReadOn(a, s[0]).Some? {
          NotTrailing(a, s[0]);
          CommasAreSkipped(s[1..], ReadOn(a, s[0]).value, ReadOn(b, s[0]).value);
        }
      }
    }
  }

  lemma CommaKeeps(r: Reading)
    requires !r.stage.Trailing?
    ensures ReadOn(r, ',').Some? && Alike(r, ReadOn(r, ',').value) && !ReadOn(r, ',').value.stage.Trailing?
  {
  }

  lemma NotTrailing(r: Reading, c: char)
    requires !IsSpace(c) && ReadOn(r, c).Some?
    ensures !ReadOn(r, c).value.stage.Trailing?
  {
    hide IsSpace;
  }

  /** After the blanks that end an amount, nothing else is read. */
  lemma {:induction false} TrailingEnds(s: string, r: Reading)
    requires r.stage.Trailing? && s != "" && !IsSpace(Last(s))
    ensures ReadAll(s, r) == None
  {
    if IsSpace(s[0]) {
      assert s[1..] != "" && Last(s[1..]) == Last(s);
      TrailingEnds(s[1..], r);
    }
    hide IsSpace;
  }

  lemma {:induction false} StartedStays(s: string, r: Reading)
    requires !r.stage.Leading? && s != "" && !IsSpace(Last(s)) && !NoSpace(s)
    ensures ReadAll(s, r) == None
  {
    if IsSpace(s[0]) {
      assert s[1..] != "" && Last(s[1..]) == Last(s);
      TrailingEnds(s[1..], r.(stage := Trailing));
    } else if ReadOn(r, s[0]).Some? {
      assert s[1..] != "" && Last(s[1..]) == Last(s);
      assert NoSpace(s[1..]) ==> NoSpace(s);
      NoLongerLeading(r, s[0]);
      hide ReadOn, IsSpace;
      StartedStays(s[1..], ReadOn(r, s[0]).value);
    }
    hide IsSpace;
  }

  lemma NoLongerLeading(r: Reading, c: char)
    requires ReadOn(r, c).Some? && (!r.stage.Leading? || !IsSpace(c))
    ensures !ReadOn(r, c).value.stage.Leading?
  {
    hide IsSpace;
  }

  /** A blank inside denotes nothing. */
  lemma BlankInside(s: string)
    requires s != "" && !IsSpace(s[0]) && !IsSpace(Last(s)) && !NoSpace(s)
    ensures Denotation(s) == None
  {
    if ReadOn(NOTHING_READ, s[0]).Some? {
      assert s[1..] != "" && Last(s[1..]) == Last(s);
      assert NoSpace(s[1..]) ==> NoSpace(s);
      NoLongerLeading(NOTHING_READ, s[0]);
      hide ReadOn, IsSpace;
      StartedStays(s[1..], ReadOn(NOTHING_READ, s[0]).value);
    }
  }

  lemma {:induction false} BlankStays(s: string)
    requires !NoSpace(s)
    ensures !NoSpace(Without(s, ','))
  {
    if IsSpace(s[0]) {
      assert s[0] != ',';
      assert Without(s, ',')[0] == s[0];
    } else {
      assert NoSpace(s[1..]) ==> NoSpace(s);
      BlankStays(s[1..]);
      var rest := Without(s[1..], ',');
      var i :| 0 <= i < |rest| && IsSpace(rest[i]);
      assert ([s[0]] + rest)[i + 1] == rest[i];
    }
  }

  /** The pattern matches no text with a blank or a comma. */
  lemma MatchIsTight(s: string)
    requires MatchAmount(s).Some?
    ensures NoSpace(s)
  {
    var body := if s[0] == '-' || s[0] == '+' then s[1..] else s;
    var n := DigitSpan(body);
    hide IsSpace;
    forall i | 0 <= i < |body| ensures !IsSpace(body[i]) {
      assert i < n ==> body[..n][i] == body[i];
      assert i > n ==> body[n..][1..][i - n - 1] == body[i];
      NoBlank(body[i]);
    }
    NoBlank('+');
    NoBlank('-');
    assert forall i :: 0 < i < |s| && body == s[1..] ==> s[i] == body[i - 1];
  }

  lemma NoBlank(c: char)
    requires IsDigit(c) || c == '.' || c == '+' || c == '-' || c == ','
    ensures !IsSpace(c)
  {
  }

  /** The reading after a run of digits. */
  function After(r: Reading, w: string): Reading
    requires AllDigits(w)
  {
    if w == "" then r
    else Reading(if r.stage.Fraction? then Fraction else Started, r.negative, r.mantissa * Pow10(|w|) + Value(w), r.digits + |w|,
                 if r.stage.Fraction? then r.scale + |w| else r.scale)
  }

  lemma ReadOne(c: char, r: Reading)
    ensures ReadAll([c], r) == ReadOn(r, c)
  {
    hide ReadOn;
    assert [c][0] == c && [c][1..] == "";
    if ReadOn(r, c).Some? {
      assert ReadAll("", ReadOn(r, c).value) == ReadOn(r, c);
    }
  }

  lemma OneDigit(c: char)
    requires IsDigit(c)
    ensures AllDigits([c]) && Value([c]) == DigitValue(c) && Pow10(1) == 10
  {
    assert [c][..0] == "";
    EmptyValue();
    assert Pow10(1) == 10 * Pow10(0);
  }

  lemma DigitNext(r: Reading, c: char)
    requires IsDigit(c) && !r.stage.Trailing?
    ensures ReadOn(r, c) == Some(Reading(if r.stage.Fraction? then Fraction else Started, r.negative, 10 * r.mantissa + DigitValue(c),
                                         r.digits + 1, if r.stage.Fraction? then r.scale + 1 else r.scale))
  {
    NoBlank(c);
    hide IsSpace;
  }

  lemma AfterOne(r: Reading, c: char)
    requires IsDigit(c)
    ensures AllDigits([c])
    ensures After(r, [c]) == Reading(if r.stage.Fraction? then Fraction else Started, r.negative, 10 * r.mantissa + DigitValue(c),
                                     r.digits + 1, if r.stage.Fraction? then r.scale + 1 else r.scale)
  {
    OneDigit(c);
    hide Value, Pow10, DigitValue, IsDigit;
    TimesTen(r.mantissa, Pow10(1));
  }

  lemma DigitRead(r: Reading, c: char)
    requires IsDigit(c) && !r.stage.Trailing?
    ensures AllDigits([c]) && ReadAll([c], r) == Some(After(r, [c]))
  {
    DigitNext(r, c);
    AfterOne(r, c);
    ReadOne(c, r);
    hide ReadOn, ReadAll, After;
  }

  lemma TimesTen(m: int, p: int)
    requires p == 10
    ensures m * p == 10 * m
  {
  }

  lemma AfterMore(r: Reading, v: string, c: char)
    requires AllDigits(v) && IsDigit(c)
    ensures AllDigits([c]) && AllDigits(v + [c]) && After(After(r, v), [c]) == After(r, v + [c])
  {
    ValueConcat(v, [c]);
    assert Pow10(|v| + 1) == Pow10(|v|) * Pow10(1) by { Pow10Add(|v|, 1); }
    hide Value, Pow10;
    if v == "" {
      assert v + [c] == [c];
    } else {
      Regroup(r.mantissa, Pow10(|v|), Value(v), Pow10(1), Value([c]));
    }
  }

  lemma Regroup(m: int, p: int, v: int, q: int, d: int)
    ensures (m * p + v) * q + d == m * (p * q) + (v * q + d)
  {
    MulAssoc(m, p, q);
  }

  lemma {:induction false} ReadDigits(w: string, r: Reading)
    requires AllDigits(w) && !r.stage.Trailing?
    ensures ReadAll(w, r) == Some(After(r, w))
  {
    if w != "" {
      var v, c := w[..|w| - 1], w[|w| - 1];
      assert AllDigits(v) && w == v + [c];
      ReadDigits(v, r);
      AfterStage(r, v);
      hide ReadAll, After;
      ReadConcat(v, [c], r);
      DigitRead(After(r, v), c);
      AfterMore(r, v, c);
    }
  }

  lemma AfterStage(r: Reading, w: string)
    requires AllDigits(w) && !r.stage.Trailing?
    ensures !After(r, w).stage.Trailing? && (After(r, w).stage.Fraction? <==> r.stage.Fraction?)
  {
  }

  /** A text with neither blanks nor commas denotes what the pattern makes of it. */
  lemma MatchIsRead(s: string)
    requires NoSpace(s) && ',' !in s
    ensures Denotation(s) == OfAmount(MatchAmount(s))
  {
    hide IsSpace, NoSpace, ReadAll, ReadOn, Value, Pow10, After;
    var signed := |s| > 0 && (s[0] == '-' || s[0] == '+');
    var body := if signed then s[1..] else s;
    var r := if signed then Reading(Started, s[0] == '-', 0, 0, 0) else NOTHING_READ;
    SignRead(s);
    var n := DigitSpan(body);
    var whole, rest := body[..n], body[n..];
    assert body == whole + rest;
    TailIsTight(s, body, n);
    ReadConcat(whole, rest, r);
    ReadDigits(whole, r);
    hide DigitSpan;
    BodyIsRead(r, whole, rest);
  }

  lemma BodyIsRead(r: Reading, whole: string, rest: string)
    requires AllDigits(whole) && NoSpace(rest) && ',' !in rest && (rest != "" ==> !IsDigit(rest[0]))
    requires r == Reading(Started, r.negative, 0, 0, 0) || (r == NOTHING_READ && (whole + rest != "" ==> (whole + rest)[0] != '-' && (whole + rest)[0] != '+'))
    ensures Denoted(ReadAll(rest, After(r, whole)))
         == OfAmount(if rest == "" then if whole == "" then None else Some(Amount(r.negative, whole, ""))
                     else if rest[0] == '.' && AllDigits(rest[1..]) && |whole| + |rest| > 1 then Some(Amount(r.negative, whole, rest[1..]))
                     else None)
  {
    EmptyValue();
    hide IsSpace, NoSpace, ReadOn, Value;
    if rest == "" {
      assert whole + "" == whole;
      assert Pow10(0) == 1;
    } else {
      if whole == "" {
        assert whole + rest == rest;
      }
      RestIsRead(rest, After(r, whole));
      if rest[0] == '.' && AllDigits(rest[1..]) {
        ValueConcat(whole, rest[1..]);
        FractionDenotes(r, whole, rest[1..]);
      }
    }
    hide ReadAll;
  }

  lemma SignRead(s: string)
    requires NoSpace(s)
    ensures var signed := |s| > 0 && (s[0] == '-' || s[0] == '+');
            ReadAll(s, NOTHING_READ) == if signed then ReadAll(s[1..], Reading(Started, s[0] == '-', 0, 0, 0)) else ReadAll(s, NOTHING_READ)
  {
    hide IsSpace;
  }

  lemma TailIsTight(s: string, body: string, n: nat)
    requires NoSpace(s) && ',' !in s && (body == s || (s != "" && body == s[1..])) && n <= |body|
    ensures NoSpace(body[n..]) && ',' !in body[n..]
  {
    hide IsSpace;
    var rest := body[n..];
    assert forall i :: 0 <= i < |rest| ==> rest[i] == body[n + i];
    assert forall i :: 0 <= i < |body| ==> body[i] == if body == s then s[i] else s[i + 1];
  }

  lemma FractionDenotes(r: Reading, whole: string, f: string)
    requires AllDigits(whole) && AllDigits(f) && AllDigits(whole + f) && Value(whole + f) == Value(whole) * Pow10(|f|) + Value(f)
    requires r.mantissa == 0 && r.digits == 0 && r.scale == 0 && !r.stage.Fraction?
    ensures var q := After(After(r, whole).(stage := Fraction), f);
            q.negative == r.negative && q.mantissa == Value(whole + f) && q.digits == |whole| + |f| && q.scale == |f|
  {
    EmptyValue();
    assert Pow10(0) == 1;
    hide Pow10;
  }

  /** What follows the whole digits: a point and digits, or the pattern fails. */
  lemma RestIsRead(rest: string, r: Reading)
    requires rest != "" && NoSpace(rest) && ',' !in rest && !IsDigit(rest[0])
    requires r.stage.Started? || (r.stage.Leading? && rest[0] != '-' && rest[0] != '+')
    ensures rest[0] == '.' && AllDigits(rest[1..]) ==> ReadAll(rest, r) == Some(After(r.(stage := Fraction), rest[1..]))
    ensures !(rest[0] == '.' && AllDigits(rest[1..])) ==> ReadAll(rest, r) == None
  {
    assert !IsSpace(rest[0]);
    hide IsSpace, After, Value;
    if rest[0] == '.' {
      var f, q := rest[1..], r.(stage := Fraction);
      assert ReadAll(rest, r) == ReadAll(f, q);
      FractionRead(f, q);
      assert NoSpace(f) && ',' !in f by {
        assert forall i :: 0 <= i < |f| ==> f[i] == rest[i + 1];
      }
    }
  }

  lemma FractionRead(f: string, r: Reading)
    requires r.stage.Fraction?
    ensures AllDigits(f) ==> ReadAll(f, r) == Some(After(r, f))
    ensures !AllDigits(f) && NoSpace(f) && ',' !in f ==> ReadAll(f, r) == None
  {
    hide After, Value;
    if AllDigits(f) {
      ReadDigits(f, r);
    } else if NoSpace(f) && ',' !in f {
      var n := DigitSpan(f);
      var after := f[n..];
      assert f == f[..n] + after && f[..|f|] == f;
      ReadDigits(f[..n], r);
      AfterStage(r, f[..n]);
      ReadConcat(f[..n], after, r);
      assert after[0] == f[n] && f[n] in f && !IsSpace(f[n]);
      hide IsSpace;
      assert ReadOn(After(r, f[..n]), after[0]) == None;
    }
  }

  /** Reading the characters gives what trimming, removing commas and matching give. */
  lemma DenotationIsMatched(s: string)
    ensures Denotation(s) == Matched(s)
  {
    hide ReadAll, ReadOn, IsSpace, Trim, MatchAmount, OfAmount;
    var left, right := TrimSplits(s);
    var core := Trim(s);
    BlanksAround(left, core, right);
    var u := Without(core, ',');
    if NoSpace(core) {
      CommasAreSkipped(core, NOTHING_READ, NOTHING_READ);
      CommasAreGone(core);
      MatchIsRead(u);
    } else {
      BlankInside(core);
      BlankStays(core);
      if MatchAmount(u).Some? {
        MatchIsTight(u);
      }
      NothingMatched();
    }
  }

  lemma NothingMatched()
    ensures OfAmount(None) == None
  {
  }

  lemma {:induction false} CommasAreGone(s: string)
    ensures ',' !in Without(s, ',') && forall c :: c in Without(s, ',') ==> c in s
    ensures NoSpace(s) ==> NoSpace(Without(s, ','))
  {
    if s != "" {
      CommasAreGone(s[1..]);
      assert s == [s[0]] + s[1..];
      hide IsSpace;
    }
  }

  // ---------- How an amount may be spelled ----------

  /** A comma counts for nothing wherever it stands, except beside a blank. */
  lemma CommaCountsForNothing(a: string, b: string, currency: string)
    requires (a == "" || !IsSpace(Last(a))) && (b == "" || !IsSpace(b[0]))
    ensures Denotation(a + "," + b) == Denotation(a + b)
    ensures ToMinor(a + "," + b, currency) == ToMinor(a + b, currency)
  {
    ReadConcat(a + ",", b, NOTHING_READ);
    ReadConcat(a, ",", NOTHING_READ);
    ReadConcat(a, b, NOTHING_READ);
    if ReadAll(a, NOTHING_READ).Some? {
      var r := ReadAll(a, NOTHING_READ).value;
      if a != "" {
        NotTrailingAfter(a, NOTHING_READ);
      }
      hide IsSpace;
      CommaRead(r);
      CommaThen(b, r, ReadAll(",", r).value);
    }
    SameDenotationSameAmount(a + "," + b, a + b, currency);
  }

  lemma CommaRead(r: Reading)
    requires !r.stage.Trailing?
    ensures ReadAll(",", r).Some? && Alike(r, ReadAll(",", r).value) && !ReadAll(",", r).value.stage.Trailing?
  {
    assert ","[1..] == "";
    CommaKeeps(r);
  }

  lemma CommaThen(b: string, r: Reading, q: Reading)
    requires Alike(r, q) && (b == "" || !IsSpace(b[0])) && !r.stage.Trailing? && !q.stage.Trailing?
    ensures Denoted(ReadAll(b, r)) == Denoted(ReadAll(b, q))
  {
    hide IsSpace;
    if b != "" {
      OneAlike(r, q, b[0]);
      if ReadOn(r, b[0]).Some? {
        var r1, q1 := ReadOn(r, b[0]).value, ReadOn(q, b[0]).value;
        NoLongerLeading(r, b[0]);
        NoLongerLeading(q, b[0]);
        NotLeadingAlike(b[1..], r1, q1);
      }
    }
  }

  lemma {:induction false} NotLeadingAlike(b: string, r: Reading, q: Reading)
    requires Alike(r, q) && !r.stage.Leading? && !q.stage.Leading?
    ensures Denoted(ReadAll(b, r)) == Denoted(ReadAll(b, q))
  {
    assert r == q;
  }

  lemma {:induction false} NotTrailingAfter(a: string, r: Reading)
    requires a != "" && !IsSpace(Last(a)) && ReadAll(a, r).Some?
    ensures !ReadAll(a, r).value.stage.Trailing?
  {
    if |a| == 1 {
      assert a[1..] == "";
      NotTrailing(r, a[0]);
    } else {
      assert Last(a[1..]) == Last(a);
      hide ReadOn, IsSpace;
      NotTrailingAfter(a[1..], ReadOn(r, a[0]).value);
    }
  }

  /** A plus sign counts for nothing before a digit or a point. */
  lemma PlusCountsForNothing(s: string, currency: string)
    requires s != "" && (IsDigit(s[0]) || s[0] == '.')
    ensures Denotation("+" + s) == Denotation(s)
    ensures ToMinor("+" + s, currency) == ToMinor(s, currency)
  {
    assert ("+" + s)[0] == '+' && ("+" + s)[1..] == s;
    NoBlank('+');
    NoBlank(s[0]);
    hide IsSpace;
    var r := Reading(Started, false, 0, 0, 0);
    assert ReadAll("+" + s, NOTHING_READ) == ReadAll(s, r);
    assert ReadOn(r, s[0]) == ReadOn(NOTHING_READ, s[0]);
    SameDenotationSameAmount("+" + s, s, currency);
  }

  /** Neither do blanks around the amount. */
  lemma BlanksCountForNothing(left: string, s: string, right: string, currency: string)
    requires AllSpaces(left) && AllSpaces(right)
    ensures ToMinor(left + s + right, currency) == ToMinor(s, currency)
  {
    BlanksAround(left, s, right);
    SameDenotationSameAmount(left + s + right, s, currency);
  }

  /** Digits before and after a point denote the number they spell; a minus sign negates it. */
  lemma DigitsDenote(w: string, f: string)
    requires AllDigits(w) && AllDigits(f) && w + f != ""
    ensures AllDigits(w + f)
    ensures Denotation(w + "." + f) == Some(Rational(Value(w + f), |f|))
    ensures Denotation("-" + w + "." + f) == Some(Rational(-(Value(w + f) as int), |f|))
  {
    hide *;
    ValueConcat(w, f);
    assert |w + f| == |w| + |f|;
    var r := Reading(Started, true, 0, 0, 0);
    StartsPlain();
    PointRead(w, f, NOTHING_READ);
    PointRead(w, f, r);
    MinusRead(w + "." + f);
    MinusFirst(w, f);
    ReadingDenotes(w + "." + f, Reading(Fraction, false, Value(w + f), |w| + |f|, |f|));
    ReadingDenotes("-" + w + "." + f, Reading(Fraction, true, Value(w + f), |w| + |f|, |f|));
  }

  lemma StartsPlain()
    ensures !NOTHING_READ.negative
  {
  }

  lemma ReadingDenotes(s: string, r: Reading)
    requires ReadAll(s, NOTHING_READ) == Some(r) && r.digits > 0
    ensures Denotation(s) == Some(Rational(if r.negative then -(r.mantissa as int) else r.mantissa, r.scale))
  {
    hide ReadAll;
  }

  lemma MinusFirst(w: string, f: string)
    ensures "-" + w + "." + f == "-" + (w + "." + f)
  {
  }

  lemma MinusRead(s: string)
    ensures ReadAll("-" + s, NOTHING_READ) == ReadAll(s, Reading(Started, true, 0, 0, 0))
  {
    NoBlank('-');
    hide IsSpace;
    assert ("-" + s)[0] == '-' && ("-" + s)[1..] == s;
  }

  lemma PointRead(w: string, f: string, r: Reading)
    requires AllDigits(w) && AllDigits(f) && AllDigits(w + f) && (r == NOTHING_READ || r == Reading(Started, true, 0, 0, 0))
    ensures ReadAll(w + "." + f, r) == Some(Reading(Fraction, r.negative, Value(w + f), |w| + |f|, |f|))
  {
    ValueConcat(w, f);
    hide Value, Pow10, ReadAll;
    ReadConcat(w + ".", f, r);
    ReadConcat(w, ".", r);
    ReadDigits(w, r);
    AfterStage(r, w);
    PointAlone(After(r, w));
    var q := After(r, w).(stage := Fraction);
    ReadDigits(f, q);
    FractionDenotes(r, w, f);
    AfterStage(q, f);
    hide After;
  }

  lemma PointAlone(r: Reading)
    requires !r.stage.Trailing? && !r.stage.Fraction?
    ensures ReadAll(".", r) == Some(r.(stage := Fraction))
  {
    ReadOne('.', r);
    NoBlank('.');
    assert "." == ['.'];
    hide IsSpace, ReadAll;
  }

  // ---------- `toMinor` is exact ----------

  /** `n` minor units of 10^-exponent are exactly the number `r`. */
  predicate IsExactly(n: int, exponent: nat, r: Rational) {
    n * Pow10(r.scale) == r.mantissa * Pow10(exponent)
  }

  lemma {:induction false} StripLength(f: string, e: nat)
    ensures |StripTrailingZeros(f)| <= e <==> forall i :: e <= i < |f| ==> f[i] == '0'
  {
    if |f| > 0 && f[|f| - 1] == '0' {
      var g := f[..|f| - 1];
      StripLength(g, e);
      assert forall i :: 0 <= i < |g| ==> g[i] == f[i];
    } else if |f| > e {
      assert f[|f| - 1] != '0';
    }
  }

  /** A digit string is all zeros exactly when it denotes zero. */
  lemma {:induction false} ZeroValue(s: string)
    requires AllDigits(s)
    ensures Value(s) == 0 <==> forall i :: 0 <= i < |s| ==> s[i] == '0'
  {
    if |s| > 0 {
      var t := s[..|s| - 1];
      ZeroValue(t);
      assert forall i :: 0 <= i < |t| ==> t[i] == s[i];
      assert DigitValue(s[|s| - 1]) == 0 <==> s[|s| - 1] == '0';
    }
  }

  lemma MulPositive(x: int, p: int)
    requires x > 0 && p > 0
    ensures x * p > 0
  {
  }

  lemma MulCancel(a: int, b: int, p: int)
    requires p > 0 && a * p == b * p
    ensures a == b
  {
    assert (b - a) * p == 0 && (a - b) * p == 0;
    if a != b {
      MulPositive(if a < b then b - a else a - b, p);
      assert false;
    }
  }

  lemma MulAssoc(a: int, b: int, c: int)
    ensures (a * b) * c == a * (b * c)
  {
  }

  /** The digits kept by `toMinor` are the exact scaled value when only zeros are dropped. */
  lemma KeptDigits(whole: string, f: string, e: nat)
    requires AllDigits(whole) && AllDigits(f) && |StripTrailingZeros(f)| <= e
    ensures AllDigits(whole + FitFraction(f, e)) && AllDigits(whole + f)
    ensures Value(whole + FitFraction(f, e)) * Pow10(|f|) == Value(whole + f) * Pow10(e)
  {
    StripLength(f, e);
    var fitted := FitFraction(f, e);
    if |f| <= e {
      var z := e - |f|;
      assert fitted == f + Zeros(z);
      assert whole + fitted == (whole + f) + Zeros(z);
      ValueConcat(whole + f, Zeros(z));
      ValueZeros(z);
      assert Pow10(e) == Pow10(z) * Pow10(|f|) by { Pow10Add(z, |f|); }
      MulAssoc(Value(whole + f), Pow10(z), Pow10(|f|));
    } else {
      var z := |f| - e;
      assert fitted == f[..e];
      assert whole + f == (whole + fitted) + f[e..];
      ValueConcat(whole + fitted, f[e..]);
      ZeroValue(f[e..]);
      assert Pow10(|f|) == Pow10(z) * Pow10(e) by { Pow10Add(z, e); }
      MulAssoc(Value(whole + fitted), Pow10(z), Pow10(e));
    }
  }

  /** No integer times p exceeds a multiple of p by less than p. */
  lemma NotAMultiple(n: int, kept: int, tail: int, p: int)
    requires 0 < tail < p
    ensures n * p != kept * p + tail
  {
    if n * p == kept * p + tail {
      assert (n - kept) * p == tail;
      if n > kept {
        MulPositive(n - kept, p);
        assert (n - kept - 1) * p < 0;
        if n - kept > 1 { MulPositive(n - kept - 1, p); }
        assert false;
      } else if n < kept {
        MulPositive(kept - n, p);
        assert false;
      }
    }
  }

  /** When a non-zero digit would be dropped, no whole number of minor units is the amount. */
  lemma DroppedDigits(whole: string, f: string, e: nat, n: int)
    requires AllDigits(whole) && AllDigits(f) && AllDigits(whole + f) && |StripTrailingZeros(f)| > e
    ensures n * Pow10(|f|) != Value(whole + f) * Pow10(e)
  {
    StripLength(f, e);
    var k, tail := |f| - e, f[e..];
    assert whole + f == (whole + f[..e]) + tail;
    ValueConcat(whole + f[..e], tail);
    ValueBound(tail);
    assert Value(tail) != 0 by {
      ZeroValue(tail);
      var i :| e <= i < |f| && f[i] != '0';
      assert tail[i - e] == f[i];
    }
    NotAMultiple(n, Value(whole + f[..e]), Value(tail), Pow10(k));
    assert Pow10(|f|) == Pow10(k) * Pow10(e) by { Pow10Add(k, e); }
    MulAssoc(n, Pow10(k), Pow10(e));
    if n * Pow10(|f|) == Value(whole + f) * Pow10(e) {
      MulCancel(n * Pow10(k), Value(whole + f), Pow10(e));
    }
  }

  /** Negating both sides of an exactness equation. */
  lemma NegateExact(n: int, p: int, m: int, q: int)
    ensures (-n) * p == (-m) * q <==> n * p == m * q
  {
    assert (-n) * p == -(n * p);
    assert (-m) * q == -(m * q);
  }

  /** For a matched amount: the value computed from the kept digits is the only exact one. */
  lemma MatchedExact(a: Amount, e: nat, m: int)
    requires AllDigits(a.whole) && AllDigits(a.fraction)
    requires AllDigits(a.whole + a.fraction) && AllDigits(a.whole + FitFraction(a.fraction, e))
    ensures m * Pow10(|a.fraction|) == Value(a.whole + a.fraction) * Pow10(e) <==>
            |StripTrailingZeros(a.fraction)| <= e && m == Value(a.whole + FitFraction(a.fraction, e))
  {
    if |StripTrailingZeros(a.fraction)| > e {
      DroppedDigits(a.whole, a.fraction, e, m);
    } else {
      KeptDigits(a.whole, a.fraction, e);
      if m * Pow10(|a.fraction|) == Value(a.whole + a.fraction) * Pow10(e) {
        MulCancel(m, Value(a.whole + FitFraction(a.fraction, e)), Pow10(|a.fraction|));
      }
    }
  }

  /**
   * `toMinor` is exact: it answers `n` precisely when the currency has an exponent on file, the
   * string denotes a number, `n` minor units are that very number, and `n` is a safe integer.
   * Every other input is refused.
   */
  lemma ToMinorExact(decimal: string, currency: string, n: int)
    ensures ToMinor(decimal, currency) == Ok(n) <==>
            && MinorUnitExponent(currency).Ok?
            && Denotation(decimal).Some?
            && IsExactly(n, MinorUnitExponent(currency).value, Denotation(decimal).value)
            && IsSafe(n)
  {
    if MinorUnitExponent(currency).Ok? {
      ScaleExact(decimal, MinorUnitExponent(currency).value, n);
    }
  }

  lemma ScaleExact(decimal: string, e: nat, n: int)
    ensures Scale(decimal, e) == Ok(n) <==>
            Denotation(decimal).Some? && IsExactly(n, e, Denotation(decimal).value) && IsSafe(n)
  {
    DenotationIsMatched(decimal);
    hide Value, Pow10, StripTrailingZeros, FitFraction, MatchAmount, Trim, Without, Denotation;
    if Denotation(decimal).Some? {
      var a := MatchAmount(Without(Trim(decimal), ',')).value;
      assert AllDigits(a.whole + a.fraction) && AllDigits(FitFraction(a.fraction, e));
      MatchedExact(a, e, if a.negative then -n else n);
      NegateExact(-n, Pow10(|a.fraction|), Value(a.whole + a.fraction), Pow10(e));
      EmptyValue();
    }
  }

  lemma EmptyValue()
    ensures Value("0") == Value("") == 0
  {
  }

  /** `toMinor` refuses a known currency's amount exactly when no safe whole number of minor units is the amount. */
  lemma ToMinorRefuses(decimal: string, currency: string)
    requires MinorUnitExponent(currency).Ok?
    ensures ToMinor(decimal, currency).Err? <==>
            (Denotation(decimal).Some? ==>
               forall n: int :: IsSafe(n) ==> !IsExactly(n, MinorUnitExponent(currency).value, Denotation(decimal).value))
  {
    var result := ToMinor(decimal, currency);
    if result.Ok? {
      ToMinorExact(decimal, currency, result.value);
    } else {
      forall n: int | IsSafe(n) && Denotation(decimal).Some?
        ensures !IsExactly(n, MinorUnitExponent(currency).value, Denotation(decimal).value)
      {
        ToMinorExact(decimal, currency, n);
      }
    }
  }

  ghost predicate SameNumber(a: Rational, b: Rational) {
    a.mantissa * Pow10(b.scale) == b.mantissa * Pow10(a.scale)
  }

  /** Two accepted spellings get one result exactly when they spell one number. */
  lemma AcceptedSpellingsAgree(s: string, t: string, currency: string)
    requires ToMinor(s, currency).Ok? && ToMinor(t, currency).Ok?
    ensures Denotation(s).Some? && Denotation(t).Some?
    ensures ToMinor(s, currency) == ToMinor(t, currency)
            <==> SameNumber(Denotation(s).value, Denotation(t).value)
  {
    var m, n := ToMinor(s, currency).value, ToMinor(t, currency).value;
    ToMinorExact(s, currency, m);
    ToMinorExact(t, currency, n);
    var a, b := Denotation(s).value, Denotation(t).value;
    CrossMultiply(m, a.mantissa, Pow10(a.scale), n, b.mantissa, Pow10(b.scale),
                  Pow10(MinorUnitExponent(currency).value));
  }

  lemma CrossMultiply(m: int, am: int, ap: int, n: int, bm: int, bp: int, e: int)
    requires ap > 0 && bp > 0 && e > 0 && m * ap == am * e && n * bp == bm * e
    ensures m == n <==> am * bp == bm * ap
  {
    MulAssoc(m, ap, bp);
    MulAssoc(n, bp, ap);
    Swap(am, e, bp);
    Swap(bm, e, ap);
    MulPositive(ap, bp);
    if am * bp == bm * ap {
      MulCancel(m, n, ap * bp);
    } else if m == n {
      MulCancel(am * bp, bm * ap, e);
    }
  }

  lemma Swap(a: int, b: int, c: int)
    ensures (a * b) * c == (a * c) * b
  {
    MulAssoc(a, b, c);
    MulAssoc(a, c, b);
  }

  /** Texts that denote the same are read the same. */
  lemma SameDenotationSameAmount(s: string, t: string, currency: string)
    requires Denotation(s) == Denotation(t)
    ensures ToMinor(s, currency) == ToMinor(t, currency)
  {
    hide Denotation, Scale;
    if ToMinor(s, currency).Ok? {
      ToMinorExact(s, currency, ToMinor(s, currency).value);
      ToMinorExact(t, currency, ToMinor(s, currency).value);
    } else if ToMinor(t, currency).Ok? {
      ToMinorExact(s, currency, ToMinor(t, currency).value);
      ToMinorExact(t, currency, ToMinor(t, currency).value);
    } else {
      WhyRefused(s, currency);
      WhyRefused(t, currency);
    }
  }

  /** Which of the two errors. */
  lemma WhyRefused(s: string, currency: string)
    ensures ToMinor(s, currency) == Err(UnknownCurrency) <==> MinorUnitExponent(currency).Err?
    ensures ToMinor(s, currency).Err? ==>
              ToMinor(s, currency) == Err(if MinorUnitExponent(currency).Err? then UnknownCurrency else MalformedAmount)
  {
  }

  /** `tryToMinor` answers with the amount exactly when `toMinor` does, and otherwise says why, a blank being malformed first. */
  lemma TriesExactly(decimal: Option<string>, currency: string)
    ensures forall n :: TryToMinor(decimal, currency) == Minor(n) <==> decimal.Some? && ToMinor(decimal.value, currency) == Ok(n)
    ensures TryToMinor(decimal, currency) == Failed(UnknownCurrency)
            <==> decimal.Some? && !AllSpaces(decimal.value) && MinorUnitExponent(currency).Err?
  {
    if decimal.Some? {
      var s := decimal.value;
      WhyRefused(s, currency);
      var left, right := TrimSplits(s);
      hide IsSpace, Trim, Scale;
      if Trim(s) == "" {
        assert s == left + right && AllSpaces(s);
        assert Denotation(s) == None by {
          ReadBlanks(s, NOTHING_READ);
          hide ReadOn, ReadAll;
        }
        hide Denotation;
        if ToMinor(s, currency).Ok? {
          ToMinorExact(s, currency, ToMinor(s, currency).value);
        }
      } else {
        assert s[|left|] == Trim(s)[0];
      }
    }
  }

  /** Codes are compared without regard to case. */
  lemma CaseDoesNotMatter(a: string, b: string)
    requires |a| == |b| && forall i :: 0 <= i < |a| ==> a[i] == b[i] || ('a' <= a[i] <= 'z' && a[i] as int == b[i] as int + 32)
    ensures MinorUnitExponent(a) == MinorUnitExponent(b)
  {
    forall i | 0 <= i < |a| ensures Upper(a[i]) == Upper(b[i]) {
    }
    hide Upper;
    assert UpperCase(a) == UpperCase(b);
  }

  // ---------- Round trip ----------

  /** The pattern's groups are recovered from any amount written out. */
  lemma MatchWritten(negative: bool, whole: string, fraction: string, tail: string)
    requires AllDigits(whole) && AllDigits(fraction) && |whole| > 0
    requires tail == "." + fraction || tail == fraction == ""
    ensures MatchAmount(Written(negative, whole, tail)) == Some(Amount(negative, whole, fraction))
  {
    var s := Written(negative, whole, tail);
    var body := if |s| > 0 && (s[0] == '-' || s[0] == '+') then s[1..] else s;
    assert body == whole + tail by {
      if !negative { assert s[0] == whole[0]; }
    }
    DigitSpanAppend(whole, tail);
    assert body[..|whole|] == whole && body[|whole|..] == tail;
    assert tail != "" ==> tail[1..] == fraction;
  }

  predicate IsClean(s: string) {
    forall i :: 0 <= i < |s| ==> IsDigit(s[i]) || s[i] == '.' || s[i] == '-'
  }

  lemma PrintedIsClean(s: string)
    requires |s| > 0 && IsClean(s)
    ensures Without(Trim(s), ',') == s
  {
    TrimTight(s);
    WithoutAbsent(s, ',');
  }

  lemma WrittenDenotes(negative: bool, whole: string, fraction: string, tail: string)
    requires AllDigits(whole) && AllDigits(fraction) && |whole| > 0
    requires tail == "." + fraction || tail == fraction == ""
    ensures AllDigits(whole + fraction) && IsClean(Written(negative, whole, tail))
    ensures Denotation(Written(negative, whole, tail))
            == Some(Rational(Signed(negative, Value(whole + fraction)), |fraction|))
  {
    var text := Written(negative, whole, tail);
    MatchWritten(negative, whole, fraction, tail);
    assert IsClean(text);
    PrintedIsClean(text);
    MatchedDenotes(text, Amount(negative, whole, fraction));
  }

  lemma MatchedDenotes(text: string, a: Amount)
    requires Without(Trim(text), ',') == text && MatchAmount(text) == Some(a)
    ensures AllDigits(a.whole + a.fraction)
    ensures Denotation(text) == Some(Rational(Signed(a.negative, Value(a.whole + a.fraction)), |a.fraction|))
  {
    DenotationIsMatched(text);
    hide Denotation;
  }

  /** Splitting a digit string anywhere after its first digit and writing it with a point keeps its value. */
  lemma SplitDenotes(negative: bool, digits: string, e: nat)
    requires AllDigits(digits) && |digits| > e
    ensures var tail := if e == 0 then "" else "." + digits[|digits| - e..];
            && IsClean(Written(negative, digits[..|digits| - e], tail))
            && Denotation(Written(negative, digits[..|digits| - e], tail))
               == Some(Rational(Signed(negative, Value(digits)), e))
  {
    hide Denotation, IsClean, Written, Value;
    var whole, fraction := digits[..|digits| - e], digits[|digits| - e..];
    assert whole + fraction == digits && |fraction| == e;
    var tail := if e == 0 then "" else "." + fraction;
    WrittenDenotes(negative, whole, fraction, tail);
  }

  /** The text printed for `n` minor units denotes n / 10^exponent. */
  lemma PrintedDenotes(n: int, e: nat)
    ensures IsClean(MinorText(n, e))
    ensures Denotation(MinorText(n, e)) == Some(Rational(n, e))
  {
    hide Denotation, IsClean, Written, PadStart, Value;
    var abs := if n < 0 then -n else n;
    PaddedValue(abs, e + 1);
    SplitDenotes(n < 0, PadStart(Numeral(abs), e + 1), e);
  }

  lemma PaddedValue(n: nat, width: nat)
    ensures AllDigits(PadStart(Numeral(n), width)) && |PadStart(Numeral(n), width)| >= width
    ensures Value(PadStart(Numeral(n), width)) == n
  {
    var zeros := Zeros(if |Numeral(n)| < width then width - |Numeral(n)| else 0);
    ValueConcat(zeros, Numeral(n));
    ValueZeros(|zeros|);
  }

  /** Printing minor units and reading them back is the identity on every safe integer. */
  lemma MinorRoundTrip(n: int, currency: string)
    requires MinorUnitExponent(currency).Ok? && IsSafe(n)
    ensures MinorToDecimal(n, currency).Ok?
    ensures ToMinor(MinorToDecimal(n, currency).value, currency) == Ok(n)
  {
    PrintedDenotes(n, MinorUnitExponent(currency).value);
    ToMinorExact(MinorToDecimal(n, currency).value, currency, n);
  }

  /** A number outside the safe range prints but is refused on the way back. */
  lemma UnsafeDoesNotReturn(n: int, currency: string)
    requires MinorUnitExponent(currency).Ok? && !IsSafe(n)
    ensures ToMinor(MinorToDecimal(n, currency).value, currency).Err?
  {
    PrintedDenotes(n, MinorUnitExponent(currency).value);
    var back := ToMinor(MinorToDecimal(n, currency).value, currency);
    if back.Ok? {
      ToMinorExact(MinorToDecimal(n, currency).value, currency, back.value);
      MulCancel(back.value, n, Pow10(MinorUnitExponent(currency).value));
    }
  }
}
