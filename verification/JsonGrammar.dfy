/**
  Which texts the parser accepts, and what they mean, spelled out as syntax trees with the white space
  and the spelling of every character in them (sections 2 to 7 of RFC 8259, and what cJSON allows beyond).
 */
module JsonGrammar {
  import opened Bytes
  import opened JsonText
  import opened JsonValue

  // ----- Characters -----

  /** A character as written: itself, one letter behind a backslash, one escaped code, or two. */
  datatype Char = Raw(octet: byte) | Letter(letter: byte) | Unit(digits: seq<byte>, code: nat)
                | Pair(high: seq<byte>, highCode: nat, low: seq<byte>, lowCode: nat)

  function CharText(ch: Char): seq<byte> {
    match ch
    case Raw(octet) => [octet]
    case Letter(letter) => [92, letter]
    case Unit(digits, _) => [92, 117] + digits
    case Pair(high, _, low, _) => ([92, 117] + high) + ([92, 117] + low)
  }

  /** What the letters mean: quote, backslash, slash, and b f n r t for five control characters. */
  const LETTERS: map<byte, byte> := map[34 := 34, 92 := 92, 47 := 47, 98 := 8, 102 := 12, 110 := 10, 114 := 13, 116 := 9]

  /** `b` is a hexadecimal digit of either case with the value `n`. */
  predicate IsHex(b: byte, n: nat) {
    if n < 10 then b == 48 + n else n < 16 && (b == 97 + (n - 10) || b == 65 + (n - 10))
  }

  /** Four hexadecimal digits of the value `code`. */
  predicate HexCode(digits: seq<byte>, code: nat) {
    && |digits| == 4 && code < 65536
    && IsHex(digits[0], code / 4096) && IsHex(digits[1], code / 256 % 16)
    && IsHex(digits[2], code / 16 % 16) && IsHex(digits[3], code % 16)
  }

  /** cJSON takes four octets that are not all digits for the code 0. */
  predicate NoCode(digits: seq<byte>, code: nat) {
    |digits| == 4 && code == 0 && exists i :: 0 <= i < 4 && NoDigit(digits[i])
  }

  predicate NoDigit(b: byte) {
    forall n :: 0 <= n < 16 ==> !IsHex(b, n)
  }

  predicate CharOk(ch: Char) {
    match ch
    case Raw(octet) => octet != 92
    case Letter(letter) => letter in LETTERS
    case Unit(digits, code) => (HexCode(digits, code) || NoCode(digits, code)) && !(0xD800 <= code <= 0xDFFF)
    case Pair(high, highCode, low, lowCode) =>
      HexCode(high, highCode) && HexCode(low, lowCode) && 0xD800 <= highCode <= 0xDBFF && 0xDC00 <= lowCode <= 0xDFFF
  }

  /** The octets a character means; escaped codes in UTF-8. */
  function CharMeans(ch: Char): seq<byte>
    requires CharOk(ch)
  {
    match ch
    case Raw(octet) => [octet]
    case Letter(letter) => [LETTERS[letter]]
    case Unit(_, code) => CodeBound(ch); Utf8(code)
    case Pair(_, highCode, _, lowCode) => Utf8(0x1_0000 + (highCode - 0xD800) * 0x400 + (lowCode - 0xDC00))
  }

  lemma CodeBound(ch: Char)
    requires CharOk(ch) && ch.Unit?
    ensures ch.code < 0x1_0000
  {
  }

  // ----- Strings -----

  function Body(chars: seq<Char>): seq<byte> {
    if chars == [] then [] else CharText(chars[0]) + Body(chars[1..])
  }

  predicate CharsOk(chars: seq<Char>) {
    forall i :: 0 <= i < |chars| ==> CharOk(chars[i])
  }

  function StringMeans(chars: seq<Char>): seq<byte>
    requires CharsOk(chars)
  {
    if chars == [] then [] else CharMeans(chars[0]) + StringMeans(chars[1..])
  }

  /** No quote but behind a backslash, where a backslash goes with whatever follows it. */
  predicate Quoteless(b: seq<byte>) {
    b == [] || if b[0] == 92 then |b| >= 2 && Quoteless(b[2..]) else b[0] != 34 && Quoteless(b[1..])
  }

  /** A string: what stands between the quotes, and its characters. */
  datatype Str = Str(inside: seq<byte>, chars: seq<Char>)

  /**
    The characters make up what stands between the quotes.  When an escape without its digits swallows a
    backslash, another one in front of the closing quote counts as an escaped quote.
   */
  predicate StrOk(s: Str) {
    && Quoteless(s.inside) && CharsOk(s.chars)
    && (Body(s.chars) == s.inside
        || (s.chars != [] && s.chars[|s.chars| - 1] == Letter(34) && Body(s.chars) == s.inside + [34]))
  }

  function StrText(s: Str): seq<byte> {
    [34] + (s.inside + [34])
  }

  function StrMeans(s: Str): seq<byte>
    requires StrOk(s)
  {
    StringMeans(s.chars)
  }

  // ----- Values -----

  /** Values as written, with the white space `white`, `before` and so on between their parts. */
  datatype Syntax =
    | Null | False | True
    | Num(text: seq<byte>, number: Number)
    | Quoted(str: Str)
    | EmptyArray(white: seq<byte>)
    | Array(elems: Elems)
    | EmptyObject(white: seq<byte>)
    | Object(fields: Fields)

  datatype Elems = Elem(before: seq<byte>, value: Syntax, after: seq<byte>, next: Elems) | NoElem

  datatype Fields =
    Field(before: seq<byte>, key: Str, beforeColon: seq<byte>, afterColon: seq<byte>, value: Syntax, after: seq<byte>, next: Fields)
    | NoField

  function Text(s: Syntax): seq<byte>
    decreases s, 0
  {
    match s
    case Null => [110, 117, 108, 108]
    case False => [102, 97, 108, 115, 101]
    case True => [116, 114, 117, 101]
    case Num(text, _) => text
    case Quoted(str) => StrText(str)
    case EmptyArray(white) => [91] + (white + [93])
    case Array(elems) => [91] + ElemsText(elems)
    case EmptyObject(white) => [123] + (white + [125])
    case Object(fields) => [123] + FieldsText(fields)
  }

  /** Elements with commas between them and the bracket behind the last. */
  function ElemsText(elems: Elems): seq<byte>
    decreases elems, 0
  {
    match elems
    case NoElem => []
    case Elem(before, value, after, next) => before + (Text(value) + (after + ElemsTail(next)))
  }

  function ElemsTail(next: Elems): seq<byte>
    decreases next, 1
  {
    if next == NoElem then [93] else [44] + ElemsText(next)
  }

  function FieldsText(fields: Fields): seq<byte>
    decreases fields, 1
  {
    match fields
    case NoField => []
    case Field(before, key, beforeColon, _, _, _, _) => before + (StrText(key) + (beforeColon + ([58] + ValueText(fields))))
  }

  /** What stands behind the first colon. */
  function ValueText(f: Fields): seq<byte>
    requires f.Field?
    decreases f, 0
  {
    f.afterColon + (Text(f.value) + (f.after + FieldsTail(f.next)))
  }

  function FieldsTail(next: Fields): seq<byte>
    decreases next, 2
  {
    if next == NoField then [125] else [44] + FieldsText(next)
  }

  /** cJSON skips every octet up to 32. */
  predicate White(w: seq<byte>) {
    forall i :: 0 <= i < |w| ==> w[i] <= 32
  }

  /** At most 63 octets that strtod takes as a whole. */
  predicate NumOk(cd: Codec, text: seq<byte>, n: Number) {
    && 1 <= |text| <= 63 && (text[0] == 45 || 48 <= text[0] <= 57)
    && (forall i :: 0 <= i < |text| ==> 48 <= text[i] <= 57 || text[i] in [43, 45, 46, 69, 101])
    && cd.read(text) == Some(Read(n, |text|))
  }

  predicate WellFormed(cd: Codec, s: Syntax) {
    match s
    case Null => true
    case False => true
    case True => true
    case Num(text, n) => NumOk(cd, text, n)
    case Quoted(str) => StrOk(str)
    case EmptyArray(white) => White(white)
    case Array(elems) => elems.Elem? && ElemsOk(cd, elems)
    case EmptyObject(white) => White(white)
    case Object(fields) => fields.Field? && FieldsOk(cd, fields)
  }

  predicate ElemsOk(cd: Codec, elems: Elems) {
    match elems
    case NoElem => true
    case Elem(before, value, after, next) => White(before) && WellFormed(cd, value) && White(after) && ElemsOk(cd, next)
  }

  predicate FieldsOk(cd: Codec, fields: Fields) {
    match fields
    case NoField => true
    case Field(before, key, beforeColon, afterColon, value, after, next) =>
      && White(before) && StrOk(key) && White(beforeColon) && White(afterColon) && WellFormed(cd, value) && White(after)
      && FieldsOk(cd, next)
  }

  function Value(cd: Codec, s: Syntax): Json
    requires WellFormed(cd, s)
  {
    match s
    case Null => JNull
    case False => JFalse
    case True => JTrue
    case Num(_, n) => JNumber(n)
    case Quoted(str) => JString(StrMeans(str))
    case EmptyArray(_) => JArray(NoItem)
    case Array(elems) => JArray(ElemsValue(cd, elems))
    case EmptyObject(_) => JObject(NoMember)
    case Object(fields) => JObject(FieldsValue(cd, fields))
  }

  function ElemsValue(cd: Codec, elems: Elems): Items
    requires ElemsOk(cd, elems)
  {
    match elems
    case NoElem => NoItem
    case Elem(_, value, _, next) => Item(Value(cd, value), ElemsValue(cd, next))
  }

  function FieldsValue(cd: Codec, fields: Fields): Members
    requires FieldsOk(cd, fields)
  {
    match fields
    case NoField => NoMember
    case Field(_, key, _, _, value, _, next) => Member(StrMeans(key), Value(cd, value), FieldsValue(cd, next))
  }

  // ----- Texts -----

  const BOM: seq<byte> := [239, 187, 191]

  /** A text is a value with white space around it, perhaps behind a byte order mark, nested at most 1000 deep. */
  ghost predicate Spells(cd: Codec, text: seq<byte>, v: Json, bom: seq<byte>, before: seq<byte>, s: Syntax, after: seq<byte>) {
    && (bom == [] || bom == BOM) && White(before) && White(after)
    && text == bom + (before + (Text(s) + after))
    && WellFormed(cd, s) && Value(cd, s) == v && Height(v) <= 1000
  }
}
