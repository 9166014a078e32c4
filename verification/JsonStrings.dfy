/** The string reader accepts exactly the strings of the grammar, and reads what they mean. */
module JsonStrings {
  import opened Bytes
  import opened JsonText
  import opened JsonGrammar

  // ----- Hexadecimal digits -----

  lemma HexValues(b: byte)
    ensures HexValue(b) < 16 ==> IsHex(b, HexValue(b))
    ensures HexValue(b) >= 16 ==> HexValue(b) == 16 && NoDigit(b)
    ensures forall n :: IsHex(b, n) ==> HexValue(b) == n
  {
  }

  lemma NibblesOf(a: nat, b: nat, d: nat, e: nat)
    requires a < 16 && b < 16 && d < 16 && e < 16
    ensures var u := ((a * 16 + b) * 16 + d) * 16 + e;
            u < 65536 && u / 4096 == a && u / 256 % 16 == b && u / 16 % 16 == d && u % 16 == e
  {
    var u := ((a * 16 + b) * 16 + d) * 16 + e;
    assert u / 16 == (a * 16 + b) * 16 + d && u / 256 == a * 16 + b;
  }

  /** The value of four octets as digits; only octets that are not all digits have none. */
  lemma Hex4Is(c: seq<byte>, i: nat)
    requires i + 4 <= |c|
    ensures HexCode(c[i..i + 4], Hex4(c, i)) || NoCode(c[i..i + 4], Hex4(c, i))
  {
    var d := c[i..i + 4];
    HexValues(d[0]);
    HexValues(d[1]);
    HexValues(d[2]);
    HexValues(d[3]);
    hide HexValue, IsHex, NoDigit;
    if HexValue(d[0]) < 16 && HexValue(d[1]) < 16 && HexValue(d[2]) < 16 && HexValue(d[3]) < 16 {
      NibblesOf(HexValue(d[0]), HexValue(d[1]), HexValue(d[2]), HexValue(d[3]));
    } else {
      assert NoDigit(d[0]) || NoDigit(d[1]) || NoDigit(d[2]) || NoDigit(d[3]);
    }
  }

  /** Four octets have at most one value. */
  lemma OneCode(digits: seq<byte>, a: nat, b: nat)
    requires HexCode(digits, a) || NoCode(digits, a)
    requires HexCode(digits, b) || NoCode(digits, b)
    ensures a == b
  {
    if HexCode(digits, a) && HexCode(digits, b) {
      HexValues(digits[0]);
      HexValues(digits[1]);
      HexValues(digits[2]);
      HexValues(digits[3]);
      hide IsHex;
      Nibbles(a);
      Nibbles(b);
    } else {
      CodeOrNone(digits, a, b);
      CodeOrNone(digits, b, a);
    }
  }

  lemma CodeOrNone(digits: seq<byte>, a: nat, b: nat)
    ensures !(HexCode(digits, a) && NoCode(digits, b))
  {
    hide IsHex;
  }

  lemma CodeReads(c: seq<byte>, i: nat, digits: seq<byte>, code: nat)
    requires Stands(c, i, digits) && (HexCode(digits, code) || NoCode(digits, code))
    ensures i + 4 <= |c| && Hex4(c, i) == code
  {
    Hex4Is(c, i);
    OneCode(digits, code, Hex4(c, i));
  }

  // ----- One character -----

  lemma LetterMeans(b: byte)
    ensures b in LETTERS <==> Unletter(b).Some?
    ensures b in LETTERS ==> Unletter(b) == Some(LETTERS[b]) && b != 117
  {
  }

  lemma EscapeAt(c: seq<byte>, i: nat, rest: seq<byte>)
    requires Stands(c, i, [92, 117] + rest)
    ensures i + 2 + |rest| <= |c| && c[i] == 92 && c[i + 1] == 117 && Stands(c, i + 2, rest)
  {
    AtPart(c, i, [92, 117] + rest, 0);
    AtPart(c, i, [92, 117] + rest, 1);
    StandsSplit(c, i, [92, 117], rest);
  }

  lemma UnitRead(c: seq<byte>, i: nat, ch: Char, end: nat)
    requires CharOk(ch) && ch.Unit? && Stands(c, i, CharText(ch)) && i + 6 <= end < |c|
    ensures UnescapeOne(c, i, end) == Some(Decoded(CharMeans(ch), 6)) && |CharText(ch)| == 6
  {
    hide HexCode, NoCode, Hex4, Utf8, Stands;
    HasFour(ch.digits, ch.code);
    EscapeAt(c, i, ch.digits);
    CodeReads(c, i + 2, ch.digits, ch.code);
  }

  lemma HasFour(digits: seq<byte>, code: nat)
    requires HexCode(digits, code) || NoCode(digits, code)
    ensures |digits| == 4 && code < 0x1_0000
  {
  }

  lemma PairCode(a: nat, b: nat)
    requires 0xD800 <= a <= 0xDBFF && 0xDC00 <= b <= 0xDFFF
    ensures a % 0x400 * 0x400 + b % 0x400 == (a - 0xD800) * 0x400 + (b - 0xDC00) < 0x10_0000
  {
    assert a % 0x400 == a - 0xD800 && b % 0x400 == b - 0xDC00;
  }

  lemma PairRead(c: seq<byte>, i: nat, ch: Char, end: nat)
    requires CharOk(ch) && ch.Pair? && Stands(c, i, CharText(ch)) && i + 12 <= end < |c|
    ensures UnescapeOne(c, i, end) == Some(Decoded(CharMeans(ch), 12)) && |CharText(ch)| == 12
  {
    hide HexCode, NoCode, Hex4, Utf8, Stands;
    HasFour(ch.high, ch.highCode);
    HasFour(ch.low, ch.lowCode);
    StandsSplit(c, i, [92, 117] + ch.high, [92, 117] + ch.low);
    EscapeAt(c, i, ch.high);
    EscapeAt(c, i + 6, ch.low);
    CodeReads(c, i + 2, ch.high, ch.highCode);
    CodeReads(c, i + 8, ch.low, ch.lowCode);
    PairCode(ch.highCode, ch.lowCode);
  }

  /** A character is decoded as what it means; a letter may lie on the closing quote. */
  lemma CharRead(c: seq<byte>, i: nat, ch: Char, end: nat)
    requires CharOk(ch) && Stands(c, i, CharText(ch)) && i < end < |c|
    requires i + |CharText(ch)| <= end || (ch.Letter? && i + 2 == end + 1)
    ensures UnescapeOne(c, i, end) == Some(Decoded(CharMeans(ch), |CharText(ch)|))
  {
    match ch
    case Raw(_) => AtPart(c, i, CharText(ch), 0);
    case Letter(letter) =>
      hide LETTERS, Unletter, Utf16;
      AtPart(c, i, CharText(ch), 0);
      AtPart(c, i, CharText(ch), 1);
      LetterMeans(letter);
    case Unit(digits, code) =>
      HasFour(digits, code);
      UnitRead(c, i, ch, end);
    case Pair(high, highCode, low, lowCode) =>
      HasFour(high, highCode);
      HasFour(low, lowCode);
      PairRead(c, i, ch, end);
  }

  lemma FourAt(c: seq<byte>, i: nat)
    requires i + 6 <= |c| && c[i] == 92 && c[i + 1] == 117
    ensures Stands(c, i, [92, 117] + c[i + 2..i + 6])
  {
    assert c[i..i + 6] == [92, 117] + c[i + 2..i + 6];
  }

  lemma StandsJoin(c: seq<byte>, i: nat, a: seq<byte>, b: seq<byte>)
    requires Stands(c, i, a) && Stands(c, i + |a|, b)
    ensures Stands(c, i, a + b)
  {
    assert c[i..i + |a + b|] == c[i..i + |a|] + c[i + |a|..i + |a| + |b|];
  }

  lemma UnitFound(c: seq<byte>, i: nat, end: nat) returns (ch: Char)
    requires i < end < |c| && c[i] == 92 && c[i + 1] == 117 && Utf16(c, i, end).Some?
    ensures CharOk(ch) && Stands(c, i, CharText(ch))
    ensures Utf16(c, i, end).value == Decoded(CharMeans(ch), |CharText(ch)|)
  {
    hide HexCode, NoCode, Hex4, Utf8, Stands;
    var first := Hex4(c, i + 2);
    Hex4Is(c, i + 2);
    FourAt(c, i);
    HasFour(c[i + 2..i + 6], first);
    if 0xD800 <= first <= 0xDBFF {
      var second := Hex4(c, i + 8);
      Hex4Is(c, i + 8);
      FourAt(c, i + 6);
      HasFour(c[i + 8..i + 12], second);
      StandsJoin(c, i, [92, 117] + c[i + 2..i + 6], [92, 117] + c[i + 8..i + 12]);
      PairCode(first, second);
      NonZero(c[i + 2..i + 6], first);
      NonZero(c[i + 8..i + 12], second);
      ch := Pair(c[i + 2..i + 6], first, c[i + 8..i + 12], second);
    } else {
      ch := Unit(c[i + 2..i + 6], first);
    }
  }

  lemma NonZero(digits: seq<byte>, code: nat)
    requires HexCode(digits, code) || NoCode(digits, code)
    ensures code > 0 ==> HexCode(digits, code)
  {
  }

  /** Whatever is decoded is a character of the grammar. */
  lemma CharFound(c: seq<byte>, i: nat, end: nat) returns (ch: Char)
    requires i < end < |c| && c[end] == 34 && UnescapeOne(c, i, end).Some?
    ensures CharOk(ch) && Stands(c, i, CharText(ch))
    ensures UnescapeOne(c, i, end).value == Decoded(CharMeans(ch), |CharText(ch)|)
    ensures i + |CharText(ch)| > end ==> ch == Letter(34) && i + 2 == end + 1
  {
    if c[i] != 92 {
      ch := Raw(c[i]);
    } else if c[i + 1] == 117 {
      ch := UnitFound(c, i, end);
    } else {
      hide LETTERS, Unletter;
      LetterMeans(c[i + 1]);
      ch := Letter(c[i + 1]);
      assert c[i..i + 2] == [92, c[i + 1]];
    }
  }

  // ----- The second pass -----

  lemma CharSize(ch: Char)
    requires CharOk(ch)
    ensures |CharText(ch)| >= 1
  {
  }

  /** The characters fill the string from `i` to `end`, where a last escaped quote may lie on the closing one. */
  ghost predicate Fills(c: seq<byte>, i: nat, chars: seq<Char>, end: nat) {
    && CharsOk(chars) && Stands(c, i, Body(chars))
    && (i + |Body(chars)| == end || (chars != [] && chars[|chars| - 1] == Letter(34) && i + |Body(chars)| == end + 1))
  }

  lemma {:induction false} Tail(chars: seq<Char>)
    requires chars != [] && CharsOk(chars)
    ensures CharsOk(chars[1..]) && Body(chars) == CharText(chars[0]) + Body(chars[1..])
    ensures |chars| > 1 ==> |Body(chars[1..])| >= |CharText(chars[|chars| - 1])| && chars[1..][|chars| - 2] == chars[|chars| - 1]
    ensures |chars| > 1 ==> |Body(chars[1..])| >= 1
    decreases |chars|
  {
    if |chars| > 1 {
      CharSize(chars[1]);
      Tail(chars[1..]);
    }
  }

  lemma {:induction false} CharsRead(c: seq<byte>, i: nat, chars: seq<Char>, end: nat)
    requires end < |c| && Fills(c, i, chars, end)
    ensures Unescape(c, i, end) == Some(StringMeans(chars))
    decreases |chars|
  {
    hide UnescapeOne, CharOk, CharText, CharMeans, Stands;
    if chars != [] {
      var ch := chars[0];
      Tail(chars);
      CharSize(ch);
      LetterSize(chars[|chars| - 1]);
      StandsSplit(c, i, CharText(ch), Body(chars[1..]));
      CharRead(c, i, ch, end);
      if |chars| > 1 {
        CharsRead(c, i + |CharText(ch)|, chars[1..], end);
      } else {
        assert chars[1..] == [];
      }
    }
  }

  lemma LetterSize(ch: Char)
    ensures ch.Letter? ==> |CharText(ch)| == 2
  {
  }

  lemma {:induction false} CharsFound(c: seq<byte>, i: nat, end: nat) returns (chars: seq<Char>)
    requires i <= end < |c| && c[end] == 34 && Unescape(c, i, end).Some?
    ensures Fills(c, i, chars, end) && Unescape(c, i, end).value == StringMeans(chars)
    decreases end - i
  {
    hide UnescapeOne, CharOk, CharText, CharMeans;
    if i == end {
      chars := [];
    } else {
      var ch := CharFound(c, i, end);
      CharSize(ch);
      var j := i + |CharText(ch)|;
      var rest: seq<Char> := [];
      if j <= end {
        rest := CharsFound(c, j, end);
      }
      chars := [ch] + rest;
      assert chars[1..] == rest && chars[0] == ch;
      StandsJoin(c, i, CharText(ch), Body(rest));
    }
  }

  // ----- The first pass -----

  lemma {:induction false} EndFound(c: seq<byte>, i: nat, b: seq<byte>)
    requires Stands(c, i, b) && Quoteless(b) && i + |b| < |c| && c[i + |b|] == 34
    ensures FindEnd(c, i) == Some(i + |b|)
    decreases |b|
  {
    if b != [] {
      AtPart(c, i, b, 0);
      if b[0] == 92 {
        assert b == b[..2] + b[2..];
        StandsSplit(c, i, b[..2], b[2..]);
        EndFound(c, i + 2, b[2..]);
      } else {
        assert b == b[..1] + b[1..];
        StandsSplit(c, i, b[..1], b[1..]);
        EndFound(c, i + 1, b[1..]);
      }
    }
  }

  lemma {:induction false} FoundEnd(c: seq<byte>, i: nat, end: nat)
    requires FindEnd(c, i) == Some(end)
    ensures i <= end < |c| && c[end] == 34 && Quoteless(c[i..end])
    decreases if i < |c| then |c| - i else 0
  {
    if i < |c| && c[i] == 34 {
      assert c[i..end] == [];
    } else if i < |c| && c[i] == 92 {
      FoundEnd(c, i + 2, end);
      assert c[i..end][2..] == c[i + 2..end];
    } else if i < |c| {
      FoundEnd(c, i + 1, end);
      assert c[i..end][1..] == c[i + 1..end];
    }
  }

  // ----- Strings -----

  /** A string of the grammar is read as what it means, wherever it stands. */
  lemma StringReads(c: seq<byte>, p: nat, s: Str)
    requires StrOk(s) && Stands(c, p, StrText(s))
    ensures ParseString(c, p) == Some(Read(StrMeans(s), p + |StrText(s)|))
  {
    hide FindEnd, Unescape, Quoteless, CharsOk, StringMeans, Body;
    var end := p + 1 + |s.inside|;
    StandsSplit(c, p, [34], s.inside + [34]);
    StandsSplit(c, p + 1, s.inside, [34]);
    AtPart(c, p, [34], 0);
    AtPart(c, end, [34], 0);
    EndFound(c, p + 1, s.inside);
    CharsRead(c, p + 1, s.chars, end);
  }

  /** Whatever is read as a string is one of the grammar. */
  lemma StringFound(c: seq<byte>, p: nat) returns (s: Str)
    requires ParseString(c, p).Some?
    ensures StrOk(s) && Stands(c, p, StrText(s))
    ensures ParseString(c, p).value == Read(StrMeans(s), p + |StrText(s)|)
  {
    hide FindEnd, Unescape, Quoteless, CharsOk, StringMeans, Body;
    var end := FindEnd(c, p + 1).value;
    FoundEnd(c, p + 1, end);
    var chars := CharsFound(c, p + 1, end);
    s := Str(c[p + 1..end], chars);
    BetweenQuotes(c, p, end);
  }

  lemma BetweenQuotes(c: seq<byte>, p: nat, end: nat)
    requires p < end < |c| && c[p] == 34 && c[end] == 34
    ensures c[p..end + 1] == [34] + (c[p + 1..end] + [34]) && c[p + 1..end + 1] == c[p + 1..end] + [34]
  {
  }
}
