/**
  The text form of JSON strings (cm/src/cJSON.c:538-946): escaping on output, and the reader, which
  looks for the closing quote in a first pass and decodes in a second one.  Section 7 of RFC 8259.
 */
module JsonText {
  import opened Bytes

  const QUOTE: byte := 34
  const BACKSLASH: byte := 92
  const LOWER_U: byte := 117

  // ----- Writing -----

  function HexDigit(n: nat): byte
    requires n < 16
  {
    if n < 10 then 48 + n else 87 + n
  }

  /** The letter that stands for a control character, 0 if it has none. */
  function EscapeLetter(b: byte): byte {
    match b
    case 8 => 98
    case 12 => 102
    case 10 => 110
    case 13 => 114
    case 9 => 116
    case _ => 0
  }

  function Escape(b: byte): (r: seq<byte>)
    ensures |r| >= 1
  {
    if b == QUOTE || b == BACKSLASH then [BACKSLASH, b]
    else if EscapeLetter(b) != 0 then [BACKSLASH, EscapeLetter(b)]
    else if b < 32 then [BACKSLASH, LOWER_U, 48, 48, HexDigit(b / 16), HexDigit(b % 16)]
    else [b]
  }

  function EscapeAll(s: seq<byte>): seq<byte> {
    if s == [] then [] else Escape(s[0]) + EscapeAll(s[1..])
  }

  function PrintString(s: seq<byte>): seq<byte> {
    [QUOTE] + EscapeAll(s) + [QUOTE]
  }

  // ----- UTF-16 escapes to UTF-8 -----

  /** The value of a hexadecimal digit, 16 for any other byte. */
  function HexValue(b: byte): nat {
    if 48 <= b <= 57 then b - 48
    else if 65 <= b <= 70 then b - 55
    else if 97 <= b <= 102 then b - 87
    else 16
  }

  /** parse_hex4: 0 for anything but four hexadecimal digits. */
  function Hex4(c: seq<byte>, i: nat): (h: nat)
    requires i + 4 <= |c|
    ensures h < 0x1_0000
    ensures h > 0 ==> forall j :: i <= j < i + 4 ==> HexValue(c[j]) < 16
  {
    var a, b, d, e := HexValue(c[i]), HexValue(c[i + 1]), HexValue(c[i + 2]), HexValue(c[i + 3]);
    if a == 16 || b == 16 || d == 16 || e == 16 then 0 else ((a * 16 + b) * 16 + d) * 16 + e
  }

  /** The UTF-8 octets of a code point (section 3 of RFC 3629). */
  function Utf8(cp: nat): (r: seq<byte>)
    requires cp < 0x11_0000
    ensures 1 <= |r| <= 4
  {
    if cp < 0x80 then [cp]
    else if cp < 0x800 then [192 + cp / 64, 128 + cp % 64]
    else if cp < 0x1_0000 then [224 + cp / 4096, 128 + cp / 64 % 64, 128 + cp % 64]
    else [240 + cp / 262144, 128 + cp / 4096 % 64, 128 + cp / 64 % 64, 128 + cp % 64]
  }

  datatype Decoded = Decoded(bytes: seq<byte>, length: nat)

  /** utf16_literal_to_utf8: the escape at `i`, of 6 or 12 bytes, in a string that ends at `end`. */
  function Utf16(c: seq<byte>, i: nat, end: nat): (r: Option<Decoded>)
    requires i <= end <= |c|
    ensures r.Some? ==> r.value.length in {6, 12} && i + r.value.length <= end
  {
    if end - i < 6 then None
    else
      var first := Hex4(c, i + 2);
      if 0xDC00 <= first <= 0xDFFF then None
      else if 0xD800 <= first <= 0xDBFF then
        if end - i < 12 || c[i + 6] != BACKSLASH || c[i + 7] != LOWER_U then None
        else
          var second := Hex4(c, i + 8);
          if second < 0xDC00 || second > 0xDFFF then None
          else Some(Decoded(Utf8(0x1_0000 + first % 0x400 * 0x400 + second % 0x400), 12))
      else Some(Decoded(Utf8(first), 6))
  }

  // ----- Reading -----

  /** The first pass: the closing quote, with every backslash and the byte after it skipped. */
  function FindEnd(c: seq<byte>, i: nat): (r: Option<nat>)
    ensures r.Some? ==> i <= r.value < |c| && c[r.value] == QUOTE
    decreases if i < |c| then |c| - i else 0
  {
    if i >= |c| then None
    else if c[i] == QUOTE then Some(i)
    else if c[i] == BACKSLASH then
      if i + 1 >= |c| then None else FindEnd(c, i + 2)
    else FindEnd(c, i + 1)
  }

  /** What a letter after a backslash stands for; None for `u` and for letters that mean nothing. */
  function Unletter(b: byte): Option<byte> {
    match b
    case 98 => Some(8)
    case 102 => Some(12)
    case 110 => Some(10)
    case 114 => Some(13)
    case 116 => Some(9)
    case _ => if b == QUOTE || b == BACKSLASH || b == 47 then Some(b) else None
  }

  /** One step of the second pass: the bytes written and how far it moves. */
  function UnescapeOne(c: seq<byte>, i: nat, end: nat): (r: Option<Decoded>)
    requires i < end < |c|
    ensures r.Some? ==> 1 <= r.value.length && i + r.value.length <= end + 1
  {
    if c[i] != BACKSLASH then Some(Decoded([c[i]], 1))
    else if c[i + 1] == LOWER_U then Utf16(c, i, end)
    else match Unletter(c[i + 1])
         case Some(b) => Some(Decoded([b], 2))
         case None => None
  }

  /** The second pass, from `i` to the closing quote at `end`. */
  function Unescape(c: seq<byte>, i: nat, end: nat): Option<seq<byte>>
    requires end < |c|
    decreases if i < end then end - i else 0
  {
    if i >= end then Some([])
    else
      match UnescapeOne(c, i, end)
      case None => None
      case Some(d) =>
        match Unescape(c, i + d.length, end)
        case None => None
        case Some(rest) => Some(d.bytes + rest)
  }

  datatype Read<T> = Read(value: T, next: nat)

  /** parse_string: the string whose opening quote is at `i`, and the position behind it. */
  function ParseString(c: seq<byte>, i: nat): (r: Option<Read<seq<byte>>>)
    ensures r.Some? ==> i < r.value.next <= |c|
  {
    if i >= |c| || c[i] != QUOTE then None
    else
      match FindEnd(c, i + 1)
      case None => None
      case Some(end) =>
        match Unescape(c, i + 1, end)
        case None => None
        case Some(s) => Some(Read(s, end + 1))
  }

  // ----- Reading undoes writing -----

  lemma AtPart(c: seq<byte>, p: nat, part: seq<byte>, i: nat)
    requires Stands(c, p, part) && i < |part|
    ensures p + i < |c| && c[p + i] == part[i]
  {
    assert c[p..p + |part|][i] == c[p + i];
  }

  lemma HexRoundTrip(n: nat)
    requires n < 16
    ensures HexValue(HexDigit(n)) == n
  {
  }

  /** An escaped byte is passed over by the first pass and read back by the second. */
  lemma EscapeReadBack(c: seq<byte>, p: nat, b: byte, end: nat)
    requires Stands(c, p, Escape(b)) && p + |Escape(b)| <= end < |c|
    ensures UnescapeOne(c, p, end) == Some(Decoded([b], |Escape(b)|))
    ensures FindEnd(c, p) == FindEnd(c, p + |Escape(b)|)
  {
    var e := Escape(b);
    AtPart(c, p, e, 0);
    if |e| > 1 { AtPart(c, p, e, 1); }
    if |e| == 6 {
      AtPart(c, p, e, 2);
      AtPart(c, p, e, 3);
      AtPart(c, p, e, 4);
      AtPart(c, p, e, 5);
      HexRoundTrip(b / 16);
      HexRoundTrip(b % 16);
      assert Hex4(c, p + 2) == b;
      assert FindEnd(c, p + 2) == FindEnd(c, p + 3) == FindEnd(c, p + 4) == FindEnd(c, p + 5) == FindEnd(c, p + 6);
    }
  }

  lemma {:induction false} FindsEnd(c: seq<byte>, p: nat, s: seq<byte>)
    requires Stands(c, p, EscapeAll(s)) && p + |EscapeAll(s)| < |c| && c[p + |EscapeAll(s)|] == QUOTE
    ensures FindEnd(c, p) == Some(p + |EscapeAll(s)|)
    decreases |s|
  {
    hide Escape, UnescapeOne;
    if s != [] {
      StandsSplit(c, p, Escape(s[0]), EscapeAll(s[1..]));
      EscapeReadBack(c, p, s[0], p + |EscapeAll(s)|);
      FindsEnd(c, p + |Escape(s[0])|, s[1..]);
    }
  }

  lemma {:induction false} Unescapes(c: seq<byte>, p: nat, s: seq<byte>, end: nat)
    requires Stands(c, p, EscapeAll(s)) && end == p + |EscapeAll(s)| < |c|
    ensures Unescape(c, p, end) == Some(s)
    decreases |s|
  {
    hide Escape, UnescapeOne;
    if s != [] {
      StandsSplit(c, p, Escape(s[0]), EscapeAll(s[1..]));
      EscapeReadBack(c, p, s[0], end);
      Unescapes(c, p + |Escape(s[0])|, s[1..], end);
      assert [s[0]] + s[1..] == s;
    }
  }

  /** Every string reads back from its printed form, wherever that stands. */
  lemma StringRoundTrip(c: seq<byte>, p: nat, s: seq<byte>)
    requires Stands(c, p, PrintString(s))
    ensures ParseString(c, p) == Some(Read(s, p + |PrintString(s)|))
  {
    hide FindEnd, Unescape, EscapeAll;
    var e := EscapeAll(s);
    StandsSplit(c, p, [QUOTE] + e, [QUOTE]);
    StandsSplit(c, p, [QUOTE], e);
    AtPart(c, p, [QUOTE], 0);
    AtPart(c, p + 1 + |e|, [QUOTE], 0);
    FindsEnd(c, p + 1, s);
    Unescapes(c, p + 1, s, p + 1 + |e|);
  }

  // ----- Code points -----

  /** Unicode scalar values: no surrogates. */
  predicate Scalar(cp: nat) {
    cp < 0xD800 || 0xE000 <= cp < 0x11_0000
  }

  /** \uXXXX */
  function UnitEscape(u: nat): seq<byte>
    requires u < 0x1_0000
  {
    [BACKSLASH, LOWER_U, HexDigit(u / 4096), HexDigit(u / 256 % 16), HexDigit(u / 16 % 16), HexDigit(u % 16)]
  }

  /** A code point as one escape, or as two that make a surrogate pair. */
  function ScalarEscape(cp: nat): seq<byte>
    requires Scalar(cp)
  {
    if cp < 0x1_0000 then UnitEscape(cp)
    else UnitEscape(0xD800 + (cp - 0x1_0000) / 0x400) + UnitEscape(0xDC00 + (cp - 0x1_0000) % 0x400)
  }

  lemma UnitReads(c: seq<byte>, p: nat, u: nat)
    requires u < 0x1_0000 && Stands(c, p, UnitEscape(u))
    ensures c[p] == BACKSLASH && c[p + 1] == LOWER_U && Hex4(c, p + 2) == u
  {
    var e := UnitEscape(u);
    AtPart(c, p, e, 0);
    AtPart(c, p, e, 1);
    AtPart(c, p, e, 2);
    AtPart(c, p, e, 3);
    AtPart(c, p, e, 4);
    AtPart(c, p, e, 5);
    HexRoundTrip(u / 4096);
    HexRoundTrip(u / 256 % 16);
    HexRoundTrip(u / 16 % 16);
    HexRoundTrip(u % 16);
    hide HexDigit, HexValue, Stands;
    Nibbles(u);
  }

  lemma Nibbles(u: nat)
    ensures u == ((u / 4096 * 16 + u / 256 % 16) * 16 + u / 16 % 16) * 16 + u % 16
  {
    assert u / 16 / 16 == u / 256 && u / 256 / 16 == u / 4096;
  }

  /** Every code point written as UTF-16 escapes is read as its UTF-8 octets. */
  lemma Utf16ReadsScalar(c: seq<byte>, p: nat, cp: nat, end: nat)
    requires Scalar(cp) && Stands(c, p, ScalarEscape(cp)) && p + |ScalarEscape(cp)| <= end < |c|
    ensures UnescapeOne(c, p, end) == Some(Decoded(Utf8(cp), |ScalarEscape(cp)|))
  {
    hide Utf8, Hex4, HexDigit, Stands;
    if cp < 0x1_0000 {
      UnitReads(c, p, cp);
    } else {
      var v := cp - 0x1_0000;
      var high, low := 0xD800 + v / 0x400, 0xDC00 + v % 0x400;
      StandsSplit(c, p, UnitEscape(high), UnitEscape(low));
      UnitReads(c, p, high);
      UnitReads(c, p + 6, low);
      SurrogateParts(v);
    }
  }

  lemma SurrogateParts(v: nat)
    requires v < 0x10_0000
    ensures (0xD800 + v / 0x400) % 0x400 * 0x400 + (0xDC00 + v % 0x400) % 0x400 == v
    ensures 0xD800 <= 0xD800 + v / 0x400 <= 0xDBFF
  {
    assert (0xD800 + v / 0x400) % 0x400 == v / 0x400;
    assert (0xDC00 + v % 0x400) % 0x400 == v % 0x400;
  }

  /** The code point a sequence of octets stands for (section 3 of RFC 3629). */
  function FromUtf8(b: seq<byte>): nat
    requires 1 <= |b| <= 4
  {
    var b0: nat := b[0];
    if |b| == 1 then b0
    else
      var b1: nat := b[1];
      if |b| == 2 then b0 % 32 * 64 + b1 % 64
      else
        var b2: nat := b[2];
        if |b| == 3 then b0 % 16 * 4096 + b1 % 64 * 64 + b2 % 64
        else
          var b3: nat := b[3];
          b0 % 8 * 262144 + b1 % 64 * 4096 + b2 % 64 * 64 + b3 % 64
  }

  lemma Sextets(cp: nat)
    ensures cp == cp / 64 * 64 + cp % 64 == cp / 4096 * 4096 + cp / 64 % 64 * 64 + cp % 64
    ensures cp / 4096 == cp / 262144 * 64 + cp / 4096 % 64
  {
    assert cp / 64 / 64 == cp / 4096 && cp / 4096 / 64 == cp / 262144;
  }

  lemma Marks(x: nat)
    requires x < 64
    ensures (128 + x) % 64 == x && (x < 32 ==> (192 + x) % 32 == x) && (x < 16 ==> (224 + x) % 16 == x)
    ensures x < 8 ==> (240 + x) % 8 == x
  {
  }

  lemma TwoBack(a: nat, b: nat)
    requires a < 32 && b < 64
    ensures FromUtf8([192 + a, 128 + b]) == a * 64 + b
  {
    Marks(a);
    Marks(b);
  }

  lemma ThreeBack(a: nat, b: nat, c: nat)
    requires a < 16 && b < 64 && c < 64
    ensures FromUtf8([224 + a, 128 + b, 128 + c]) == a * 4096 + b * 64 + c
  {
    Marks(a);
    Marks(b);
    Marks(c);
  }

  lemma FourBack(a: nat, b: nat, c: nat, d: nat)
    requires a < 8 && b < 64 && c < 64 && d < 64
    ensures FromUtf8([240 + a, 128 + b, 128 + c, 128 + d]) == a * 262144 + b * 4096 + c * 64 + d
  {
    Marks(a);
    Marks(b);
    Marks(c);
    Marks(d);
  }

  /** The encoding is one to one, of minimal length, and marks its first and later octets as RFC 3629 says. */
  lemma Utf8Inverts(cp: nat)
    requires cp < 0x11_0000
    ensures FromUtf8(Utf8(cp)) == cp
    ensures |Utf8(cp)| == (if cp < 0x80 then 1 else if cp < 0x800 then 2 else if cp < 0x1_0000 then 3 else 4)
    ensures forall i :: 1 <= i < |Utf8(cp)| ==> 128 <= Utf8(cp)[i] < 192
    ensures |Utf8(cp)| > 1 ==> Utf8(cp)[0] >= 192
  {
    Sextets(cp);
    if cp >= 0x1_0000 {
      FourBack(cp / 262144, cp / 4096 % 64, cp / 64 % 64, cp % 64);
    } else if cp >= 0x800 {
      ThreeBack(cp / 4096, cp / 64 % 64, cp % 64);
    } else if cp >= 0x80 {
      TwoBack(cp / 64, cp % 64);
    }
    hide FromUtf8;
  }
}
