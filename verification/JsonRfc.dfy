/** The texts of RFC 8259 among those of the grammar: every one of them is parsed to what it means. */
module JsonRfc {
  import opened Bytes
  import opened JsonText
  import opened JsonValue
  import opened JsonGrammar
  import opened JsonAccepts

  /** Space, tab, line feed and carriage return (section 2). */
  predicate RfcWhite(w: seq<byte>) {
    forall i :: 0 <= i < |w| ==> w[i] in {32, 9, 10, 13}
  }

  /** Section 7: no bare control characters, and every escape complete. */
  predicate RfcChar(ch: Char) {
    match ch
    case Raw(octet) => octet >= 32 && octet != 34 && octet != 92
    case Letter(letter) => letter in {34, 92, 47, 98, 102, 110, 114, 116}
    case Unit(digits, code) => HexCode(digits, code) && !(0xD800 <= code <= 0xDFFF)
    case Pair(high, highCode, low, lowCode) =>
      HexCode(high, highCode) && HexCode(low, lowCode) && 0xD800 <= highCode <= 0xDBFF && 0xDC00 <= lowCode <= 0xDFFF
  }

  predicate RfcString(s: Str) {
    s.inside == Body(s.chars) && forall i :: 0 <= i < |s.chars| ==> RfcChar(s.chars[i])
  }

  predicate Digits(d: seq<byte>) {
    d != [] && forall i :: 0 <= i < |d| ==> 48 <= d[i] <= 57
  }

  /** Section 6: [ minus ] int [ frac ] [ exp ]. */
  predicate RfcParts(minus: seq<byte>, whole: seq<byte>, frac: seq<byte>, exp: seq<byte>) {
    && (minus == [] || minus == [45])
    && Digits(whole) && (whole[0] == 48 ==> |whole| == 1)
    && (frac == [] || (frac[0] == 46 && Digits(frac[1..])))
    && (exp == [] || (exp[0] in {69, 101} && (Digits(exp[1..]) || (|exp| > 2 && exp[1] in {43, 45} && Digits(exp[2..])))))
  }

  ghost predicate RfcNumber(text: seq<byte>) {
    exists minus, whole, frac, exp :: RfcParts(minus, whole, frac, exp) && text == minus + whole + frac + exp
  }

  /** A number of at most 63 octets that strtod takes for `n`. */
  ghost predicate RfcNum(cd: Codec, text: seq<byte>, n: Number) {
    RfcNumber(text) && |text| <= 63 && cd.read(text) == Some(Read(n, |text|))
  }

  ghost predicate RfcValue(cd: Codec, s: Syntax) {
    match s
    case Null => true
    case False => true
    case True => true
    case Num(text, n) => RfcNum(cd, text, n)
    case Quoted(str) => RfcString(str)
    case EmptyArray(white) => RfcWhite(white)
    case Array(elems) => elems.Elem? && RfcElems(cd, elems)
    case EmptyObject(white) => RfcWhite(white)
    case Object(fields) => fields.Field? && RfcFields(cd, fields)
  }

  ghost predicate RfcElems(cd: Codec, elems: Elems) {
    match elems
    case NoElem => true
    case Elem(before, value, after, next) => RfcWhite(before) && RfcValue(cd, value) && RfcWhite(after) && RfcElems(cd, next)
  }

  ghost predicate RfcFields(cd: Codec, fields: Fields) {
    match fields
    case NoField => true
    case Field(before, key, beforeColon, afterColon, value, after, next) =>
      && RfcWhite(before) && RfcString(key) && RfcWhite(beforeColon) && RfcWhite(afterColon) && RfcValue(cd, value)
      && RfcWhite(after) && RfcFields(cd, next)
  }

  // ----- They are texts of the grammar -----

  lemma WhiteIs(w: seq<byte>)
    requires RfcWhite(w)
    ensures White(w)
  {
  }

  lemma CharIs(ch: Char)
    requires RfcChar(ch)
    ensures CharOk(ch)
  {
    hide HexCode, NoCode;
  }

  lemma HexOctet(b: byte, n: nat)
    requires IsHex(b, n)
    ensures b != 34 && b != 92
  {
  }

  lemma FourDigits(digits: seq<byte>, code: nat)
    requires HexCode(digits, code)
    ensures |digits| == 4 && forall i :: 0 <= i < 4 ==> digits[i] != 34 && digits[i] != 92
  {
    HexOctet(digits[0], code / 4096);
    HexOctet(digits[1], code / 256 % 16);
    HexOctet(digits[2], code / 16 % 16);
    HexOctet(digits[3], code % 16);
    hide IsHex;
  }

  /** Octets that are neither quotes nor backslashes change nothing. */
  lemma {:induction false} PlainMore(plain: seq<byte>, rest: seq<byte>)
    requires Quoteless(rest) && forall i :: 0 <= i < |plain| ==> plain[i] != 92 && plain[i] != 34
    ensures Quoteless(plain + rest)
    decreases |plain|
  {
    if plain == [] {
      assert plain + rest == rest;
    } else {
      PlainMore(plain[1..], rest);
      assert (plain + rest)[1..] == plain[1..] + rest;
    }
  }

  lemma EscapeMore(b: byte, rest: seq<byte>)
    requires Quoteless(rest)
    ensures Quoteless([92, b] + rest)
  {
    assert ([92, b] + rest)[2..] == rest;
  }

  lemma CodeMore(digits: seq<byte>, code: nat, rest: seq<byte>)
    requires Quoteless(rest) && HexCode(digits, code)
    ensures Quoteless(([92, 117] + digits) + rest)
  {
    FourDigits(digits, code);
    PlainMore(digits, rest);
    EscapeMore(117, digits + rest);
    assert ([92, 117] + digits) + rest == [92, 117] + (digits + rest);
  }

  lemma CharMore(ch: Char, rest: seq<byte>)
    requires Quoteless(rest) && RfcChar(ch)
    ensures Quoteless(CharText(ch) + rest)
  {
    hide Quoteless, HexCode;
    match ch
    case Raw(octet) => PlainMore([octet], rest);
    case Letter(letter) => EscapeMore(letter, rest);
    case Unit(digits, code) => CodeMore(digits, code, rest);
    case Pair(high, highCode, low, lowCode) =>
      CodeMore(low, lowCode, rest);
      CodeMore(high, highCode, ([92, 117] + low) + rest);
      assert CharText(ch) + rest == ([92, 117] + high) + (([92, 117] + low) + rest);
  }

  lemma {:induction false} BodyQuoteless(chars: seq<Char>)
    requires forall i :: 0 <= i < |chars| ==> RfcChar(chars[i])
    ensures Quoteless(Body(chars)) && CharsOk(chars)
    decreases |chars|
  {
    hide RfcChar, CharOk, CharText;
    if chars == [] {
      NothingQuoteless();
    } else {
      hide Quoteless;
      BodyQuoteless(chars[1..]);
      CharMore(chars[0], Body(chars[1..]));
      CharIs(chars[0]);
    }
  }

  lemma NothingQuoteless()
    ensures Quoteless([])
  {
  }

  lemma StringIs(s: Str)
    requires RfcString(s)
    ensures StrOk(s)
  {
    hide Quoteless, RfcChar, CharsOk, Body;
    BodyQuoteless(s.chars);
  }

  predicate OfNumber(text: seq<byte>) {
    forall i :: 0 <= i < |text| ==> 48 <= text[i] <= 57 || text[i] in [43, 45, 46, 69, 101]
  }

  lemma ExpIs(exp: seq<byte>)
    requires exp == [] || (exp[0] in {69, 101} && (Digits(exp[1..]) || (|exp| > 2 && exp[1] in {43, 45} && Digits(exp[2..]))))
    ensures OfNumber(exp)
  {
    if exp != [] && !Digits(exp[1..]) {
      forall i | 2 <= i < |exp| ensures 48 <= exp[i] <= 57 {
        assert exp[2..][i - 2] == exp[i];
      }
    } else if exp != [] {
      forall i | 1 <= i < |exp| ensures 48 <= exp[i] <= 57 {
        assert exp[1..][i - 1] == exp[i];
      }
    }
  }

  lemma FracIs(frac: seq<byte>)
    requires frac == [] || (frac[0] == 46 && Digits(frac[1..]))
    ensures OfNumber(frac)
  {
    forall i | 1 <= i < |frac| ensures 48 <= frac[i] <= 57 {
      assert frac[1..][i - 1] == frac[i];
    }
  }

  lemma NumberIs(cd: Codec, text: seq<byte>, n: Number)
    requires RfcNum(cd, text, n)
    ensures NumOk(cd, text, n)
  {
    var minus, whole, frac, exp :| RfcParts(minus, whole, frac, exp) && text == minus + whole + frac + exp;
    FracIs(frac);
    ExpIs(exp);
    assert OfNumber(minus) && OfNumber(whole);
    hide RfcParts;
    assert OfNumber(minus + whole + frac + exp);
    assert text[0] == (minus + whole)[0];
  }

  lemma {:induction false} ValueIs(cd: Codec, s: Syntax)
    requires RfcValue(cd, s)
    ensures WellFormed(cd, s)
    decreases s
  {
    hide NumOk, RfcNum, StrOk, RfcString, White, RfcWhite, ElemsOk, FieldsOk, RfcElems, RfcFields;
    match s
    case Num(text, n) => NumberIs(cd, text, n);
    case Quoted(str) => StringIs(str);
    case EmptyArray(white) => WhiteIs(white);
    case Array(elems) => ElemsAre(cd, elems);
    case EmptyObject(white) => WhiteIs(white);
    case Object(fields) => FieldsAre(cd, fields);
    case _ =>
  }

  lemma {:induction false} ElemsAre(cd: Codec, elems: Elems)
    requires RfcElems(cd, elems)
    ensures ElemsOk(cd, elems)
    decreases elems
  {
    hide WellFormed, RfcValue, White, RfcWhite;
    if elems != NoElem {
      WhiteIs(elems.before);
      WhiteIs(elems.after);
      ValueIs(cd, elems.value);
      ElemsAre(cd, elems.next);
    }
  }

  lemma {:induction false} FieldsAre(cd: Codec, f: Fields)
    requires RfcFields(cd, f)
    ensures FieldsOk(cd, f)
    decreases f
  {
    hide WellFormed, RfcValue, White, RfcWhite, StrOk, RfcString;
    if f != NoField {
      WhiteIs(f.before);
      StringIs(f.key);
      WhiteIs(f.beforeColon);
      WhiteIs(f.afterColon);
      ValueIs(cd, f.value);
      WhiteIs(f.after);
      FieldsAre(cd, f.next);
    }
  }

  /**
    Every JSON text of RFC 8259, with any white space and any spelling of its characters, is parsed to
    what it means, exactly when it is nested at most 1000 deep; its numbers may have 63 octets.
   */
  lemma RfcTextParses(cd: Codec, before: seq<byte>, s: Syntax, after: seq<byte>, whole: bool)
    requires RfcWhite(before) && RfcWhite(after) && RfcValue(cd, s)
    ensures WellFormed(cd, s)
    ensures Parse(cd, before + Text(s) + after, whole) == if Height(Value(cd, s)) <= 1000 then Some(Value(cd, s)) else None
  {
    hide *;
    ValueIs(cd, s);
    WhiteIs(before);
    WhiteIs(after);
    SpelledParses(cd, [], before, s, after, whole);
    NoMark(before, Text(s), after);
  }

  lemma NoMark(before: seq<byte>, text: seq<byte>, after: seq<byte>)
    ensures [] + (before + (text + after)) == before + text + after
  {
  }
}
