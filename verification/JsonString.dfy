/**
  parse_string and print_string_ptr on buffers (cm/src/cJSON.c:698-824, 827-946).  Both compute in a
  first pass how much they will write in the second one.  The passes of the reader can disagree on
  where escapes begin, because a \u escape takes the next four bytes whatever they are.
 */
module JsonString {
  import opened Bytes
  import opened JsonText

  // ----- What the first pass counts -----

  /** Bytes and escapes the first pass starts before `p`, and whether one starts at `p`. */
  datatype Mark = Mark(units: nat, aligned: bool)

  function Scan(c: seq<byte>, i: nat, p: nat): Mark
    requires p <= |c|
    decreases if i < p then p - i else 0
  {
    if i >= p then Mark(0, i == p)
    else
      var m := Scan(c, if c[i] == BACKSLASH then i + 2 else i + 1, p);
      Mark(m.units + 1, m.aligned)
  }

  lemma {:induction false} ScanNext(c: seq<byte>, i: nat, p: nat)
    requires p < |c| && i <= p + 1
    ensures var m, n := Scan(c, i, p), Scan(c, i, p + 1);
            if i == p + 1 then n == Mark(0, true)
            else if m.aligned then n == Mark(m.units + 1, c[p] != BACKSLASH)
            else n == Mark(m.units, true)
    decreases p + 1 - i
  {
    if i < p { ScanNext(c, if c[i] == BACKSLASH then i + 2 else i + 1, p); }
  }

  lemma {:induction false} ScanGrows(c: seq<byte>, i: nat, p: nat, q: nat)
    requires i <= p <= q <= |c|
    ensures Scan(c, i, p).units <= Scan(c, i, q).units
    decreases q - p
  {
    if p < q {
      ScanGrows(c, i, p, q - 1);
      ScanNext(c, i, q - 1);
    }
  }

  /** The closing quote is where a unit of the first pass begins. */
  lemma {:induction false} EndIsAligned(c: seq<byte>, i: nat)
    requires FindEnd(c, i).Some?
    ensures Scan(c, i, FindEnd(c, i).value).aligned
    decreases if i < |c| then |c| - i else 0
  {
    if c[i] == BACKSLASH {
      EndIsAligned(c, i + 2);
    } else if c[i] != QUOTE {
      EndIsAligned(c, i + 1);
    }
  }

  // ----- The second pass writes no more -----

  /** With `out` bytes written, the second pass has read up to `p`; off the units of the first, one is spare. */
  predicate Room(c: seq<byte>, start: nat, p: nat, out: nat)
    requires p <= |c|
  {
    var m := Scan(c, start, p);
    out <= m.units && (!m.aligned ==> out + 1 <= m.units)
  }

  /** Bytes that are not backslashes are a unit each, but for one that ends an escape. */
  lemma PlainBytes(c: seq<byte>, start: nat, p: nat, n: nat)
    requires start <= p && p + n <= |c| && n >= 1
    requires forall j :: p <= j < p + n ==> c[j] != BACKSLASH
    ensures var m, k := Scan(c, start, p), Scan(c, start, p + n);
            k.aligned && k.units == m.units + (if m.aligned then n else n - 1)
    decreases n
  {
    ScanNext(c, start, p + n - 1);
    if n > 1 { PlainBytes(c, start, p, n - 1); }
  }

  /** A \u and the four bytes behind it hold at least three units. */
  lemma SixBytes(c: seq<byte>, start: nat, p: nat)
    requires start <= p && p + 6 <= |c| && c[p] == BACKSLASH && c[p + 1] == LOWER_U
    ensures Scan(c, start, p + 6).units >= Scan(c, start, p).units + 3
  {
    ScanNext(c, start, p);
    ScanNext(c, start, p + 1);
    ScanNext(c, start, p + 2);
    ScanNext(c, start, p + 3);
    ScanNext(c, start, p + 4);
    ScanNext(c, start, p + 5);
  }

  /** With four hexadecimal digits behind it there are five. */
  lemma HexEscape(c: seq<byte>, start: nat, p: nat)
    requires start <= p && p + 6 <= |c| && c[p] == BACKSLASH && c[p + 1] == LOWER_U && Hex4(c, p + 2) > 0
    ensures var k := Scan(c, start, p + 6); k.aligned && k.units == Scan(c, start, p).units + 5
  {
    ScanNext(c, start, p);
    PlainBytes(c, start, p + 1, 5);
  }

  lemma Utf16Fits(c: seq<byte>, start: nat, p: nat, end: nat, out: nat)
    requires start <= p < end < |c| && Room(c, start, p, out)
    requires c[p] == BACKSLASH && c[p + 1] == LOWER_U && Utf16(c, p, end).Some?
    ensures var d := Utf16(c, p, end).value; Room(c, start, p + d.length, out + |d.bytes|)
  {
    if Hex4(c, p + 2) == 0 {
      SixBytes(c, start, p);
    } else {
      HexEscape(c, start, p);
      if Utf16(c, p, end).value.length == 12 { HexEscape(c, start, p + 6); }
    }
  }

  /**
    One step of the second pass stays within the units of the first, even where the two passes
    disagree on where escapes begin; the last step may take the closing quote as an escaped one.
   */
  lemma StepFits(c: seq<byte>, start: nat, p: nat, end: nat, out: nat)
    requires start <= p < end < |c| && c[end] == QUOTE && Scan(c, start, end).aligned && Room(c, start, p, out)
    requires UnescapeOne(c, p, end).Some?
    ensures var d := UnescapeOne(c, p, end).value;
            && (p + d.length <= end ==> Room(c, start, p + d.length, out + |d.bytes|))
            && out + |d.bytes| <= Scan(c, start, end).units
  {
    var d := UnescapeOne(c, p, end).value;
    if c[p] == BACKSLASH && c[p + 1] == LOWER_U {
      Utf16Fits(c, start, p, end, out);
    } else {
      ScanNext(c, start, p);
      if d.length == 2 && p + 2 <= end { ScanNext(c, start, p + 1); }
    }
    if p + d.length <= end { ScanGrows(c, start, p + d.length, end); }
  }

  /** Whatever the text, the decoded string and its terminator fit the size the first pass computes. */
  lemma {:induction false} DecodedFits(c: seq<byte>, start: nat, p: nat, end: nat, out: nat)
    requires start <= p <= end < |c| && c[end] == QUOTE && Scan(c, start, end).aligned && Room(c, start, p, out)
    requires Unescape(c, p, end).Some?
    ensures out + |Unescape(c, p, end).value| <= Scan(c, start, end).units
    decreases end - p
  {
    if p < end {
      StepFits(c, start, p, end, out);
      var d := UnescapeOne(c, p, end).value;
      if p + d.length <= end { DecodedFits(c, start, p + d.length, end, out + |d.bytes|); }
    }
  }

  // ----- The reader -----

  /** `output` holds what has been decoded up to `p`; decoding the rest leads to `total`. */
  ghost predicate DecodedSoFar(c: seq<byte>, p: nat, end: nat, done: seq<byte>, total: Option<seq<byte>>)
    requires end < |c|
  {
    match Unescape(c, p, end)
    case None => total == None
    case Some(rest) => total == Some(done + rest)
  }

  lemma DecodeNext(c: seq<byte>, p: nat, end: nat, done: seq<byte>, total: Option<seq<byte>>)
    requires p < end < |c| && DecodedSoFar(c, p, end, done, total)
    ensures match UnescapeOne(c, p, end)
            case None => total == None
            case Some(d) => DecodedSoFar(c, p + d.length, end, done + d.bytes, total)
  {
    if UnescapeOne(c, p, end).Some? {
      var d := UnescapeOne(c, p, end).value;
      match Unescape(c, p + d.length, end)
      case None =>
      case Some(rest) => assert done + (d.bytes + rest) == done + d.bytes + rest;
    }
  }

  /** The loop that looks for the closing quote; `skipped` counts the bytes that need no room. */
  method FindStringEnd(c: seq<byte>, start: nat) returns (end: Option<nat>, allocationLength: nat)
    ensures end == FindEnd(c, start)
    ensures end.Some? ==> allocationLength == Scan(c, start, end.value).units + 1
  {
    var inputEnd, skipped := start, 0;
    ghost var units := 0;
    while inputEnd < |c| && c[inputEnd] != QUOTE
      invariant start <= inputEnd && FindEnd(c, inputEnd) == FindEnd(c, start)
      invariant inputEnd == start + skipped + units
      invariant inputEnd <= |c| ==> Scan(c, start, inputEnd) == Mark(units, true)
      decreases |c| - inputEnd
    {
      if c[inputEnd] == BACKSLASH {
        if inputEnd + 1 >= |c| {
          return None, 0;
        }
        ScanNext(c, start, inputEnd);
        ScanNext(c, start, inputEnd + 1);
        skipped := skipped + 1;
        inputEnd := inputEnd + 1;
      } else {
        ScanNext(c, start, inputEnd);
      }
      inputEnd := inputEnd + 1;
      units := units + 1;
    }
    if inputEnd >= |c| {
      return None, 0;
    }
    end := Some(inputEnd);
    allocationLength := inputEnd - (start - 1) - skipped;
  }

  /** `n` times six bits further right. */
  function Shifted(cp: nat, n: nat): nat {
    if n == 0 then cp else Shifted(cp, n - 1) / 64
  }

  lemma ShiftedParts(cp: nat)
    ensures Shifted(cp, 1) == cp / 64 && Shifted(cp, 2) == cp / 4096 && Shifted(cp, 3) == cp / 262144
  {
    Sextets(cp);
    assert Shifted(cp, 0) == cp && Shifted(cp, 1) == cp / 64 && Shifted(cp, 2) == cp / 64 / 64;
    assert cp / 64 / 64 == cp / 4096 && cp / 4096 / 64 == cp / 262144;
  }

  lemma ShiftedNone(cp: nat)
    ensures Shifted(cp, 0) == cp
  {
  }

  lemma ShiftedNext(cp: nat, n: nat)
    ensures Shifted(cp, n + 1) == Shifted(cp, n) / 64
  {
  }

  lemma OctetAt(cp: nat, k: nat)
    requires cp < 0x11_0000 && k < |Utf8(cp)|
    ensures var n := |Utf8(cp)| - 1 - k;
            Utf8(cp)[k] == if k > 0 then 128 + Shifted(cp, n) % 64
                           else if |Utf8(cp)| == 1 then cp
                           else (if |Utf8(cp)| == 2 then 192 else if |Utf8(cp)| == 3 then 224 else 240) + Shifted(cp, n)
  {
    ShiftedParts(cp);
  }

  /** The loop over the octets behind the first, from the last one back; `cp` is what is left over. */
  method WriteLaterOctets(codepoint: nat, output: array<byte>, pos: nat, length: nat) returns (cp: nat)
    requires codepoint < 0x11_0000 && length == |Utf8(codepoint)| && pos + length <= output.Length
    modifies output
    ensures cp == Shifted(codepoint, length - 1) && output[..pos] == old(output[..pos])
    ensures forall j :: 0 < j < length ==> output[pos + j] == Utf8(codepoint)[j]
  {
    hide Utf8, Shifted;
    ShiftedNone(codepoint);
    cp := codepoint;
    var k := length - 1;
    while k > 0
      invariant 0 <= k < length && cp == Shifted(codepoint, length - 1 - k)
      invariant output[..pos] == old(output[..pos])
      invariant forall j :: k < j < length ==> output[pos + j] == Utf8(codepoint)[j]
    {
      OctetAt(codepoint, k);
      ShiftedNext(codepoint, length - 1 - k);
      output[pos + k] := 128 + cp % 64;
      cp := cp / 64;
      k := k - 1;
    }
  }

  /** The end of utf16_literal_to_utf8: the octets are written from the last one back. */
  method WriteUtf8(codepoint: nat, output: array<byte>, pos: nat) returns (next: nat)
    requires codepoint < 0x11_0000 && pos + |Utf8(codepoint)| <= output.Length
    modifies output
    ensures next == pos + |Utf8(codepoint)| && output[..next] == old(output[..pos]) + Utf8(codepoint)
  {
    Utf8Inverts(codepoint);
    hide Utf8, Shifted, FromUtf8;
    var length, mark := 4, 240;
    if codepoint < 0x80 {
      length, mark := 1, 0;
    } else if codepoint < 0x800 {
      length, mark := 2, 192;
    } else if codepoint < 0x1_0000 {
      length, mark := 3, 224;
    }
    var cp := WriteLaterOctets(codepoint, output, pos, length);
    OctetAt(codepoint, 0);
    var first: nat := mark + cp;
    output[pos] := first;
    next := pos + length;
    assert output[pos..next] == Utf8(codepoint);
    assert output[..next] == output[..pos] + output[pos..next];
  }

  /** utf16_literal_to_utf8; a sequence length of 0 is its failure result. */
  method Utf16LiteralToUtf8(c: seq<byte>, p: nat, end: nat, output: array<byte>, pos: nat) returns (sequenceLength: nat, next: nat)
    requires p < end < |c|
    requires pos <= output.Length
    requires Utf16(c, p, end).Some? ==> pos + |Utf16(c, p, end).value.bytes| <= output.Length
    modifies output
    ensures pos <= next <= output.Length
    ensures match Utf16(c, p, end)
            case None => sequenceLength == 0 && next == pos
            case Some(d) => sequenceLength == d.length && output[..next] == old(output[..pos]) + d.bytes && next == pos + |d.bytes|
  {
    if end - p < 6 {
      return 0, pos;
    }
    var firstCode := Hex4(c, p + 2);
    var codepoint := firstCode;
    if 0xDC00 <= firstCode <= 0xDFFF {
      return 0, pos;
    }
    if 0xD800 <= firstCode <= 0xDBFF {
      if end - (p + 6) < 6 || c[p + 6] != BACKSLASH || c[p + 7] != LOWER_U {
        return 0, pos;
      }
      var secondCode := Hex4(c, p + 8);
      if secondCode < 0xDC00 || secondCode > 0xDFFF {
        return 0, pos;
      }
      sequenceLength := 12;
      codepoint := 0x1_0000 + firstCode % 0x400 * 0x400 + secondCode % 0x400;
    } else {
      sequenceLength := 6;
    }
    next := WriteUtf8(codepoint, output, pos);
  }

  /** One turn of the second pass. */
  method WriteOne(c: seq<byte>, p: nat, end: nat, output: array<byte>, pos: nat) returns (length: nat, next: nat)
    requires p < end < |c| && pos <= output.Length
    requires UnescapeOne(c, p, end).Some? ==> pos + |UnescapeOne(c, p, end).value.bytes| <= output.Length
    modifies output
    ensures pos <= next <= output.Length
    ensures match UnescapeOne(c, p, end)
            case None => length == 0
            case Some(d) => length == d.length && output[..next] == old(output[..pos]) + d.bytes && next == pos + |d.bytes|
  {
    if c[p] == BACKSLASH && c[p + 1] == LOWER_U {
      length, next := Utf16LiteralToUtf8(c, p, end, output, pos);
    } else if c[p] == BACKSLASH {
      var letter := Unletter(c[p + 1]);
      if letter == None {
        return 0, pos;
      }
      output[pos] := letter.value;
      length, next := 2, pos + 1;
      assert output[..next] == output[..pos] + [letter.value];
    } else {
      output[pos] := c[p];
      length, next := 1, pos + 1;
      assert output[..next] == output[..pos] + [c[p]];
    }
  }

  /** parse_string: every byte is written inside the buffer that the first pass sized. */
  method ReadString(c: seq<byte>, i: nat) returns (r: Option<Read<seq<byte>>>)
    ensures r == ParseString(c, i)
  {
    if i >= |c| || c[i] != QUOTE {
      return None;
    }
    var found, allocationLength := FindStringEnd(c, i + 1);
    if found == None {
      return None;
    }
    var end := found.value;
    EndIsAligned(c, i + 1);
    var output := new byte[allocationLength + 1];
    var p, pos := i + 1, 0;
    ghost var total := Unescape(c, p, end);
    assert output[..0] == [];
    assert DecodedSoFar(c, p, end, [], total) by { assert total.Some? ==> [] + total.value == total.value; }
    while p < end
      invariant i < p <= end + 1 && pos < output.Length && output.Length == Scan(c, i + 1, end).units + 2
      invariant p <= end ==> Room(c, i + 1, p, pos)
      invariant pos <= Scan(c, i + 1, end).units
      invariant DecodedSoFar(c, p, end, output[..pos], total)
      decreases end - p
    {
      DecodeNext(c, p, end, output[..pos], total);
      if UnescapeOne(c, p, end).Some? { StepFits(c, i + 1, p, end, pos); }
      var length;
      length, pos := WriteOne(c, p, end, output, pos);
      if length == 0 {
        return None;
      }
      p := p + length;
    }
    output[pos] := 0;
    assert Unescape(c, p, end) == Some([]) && output[..pos] + [] == output[..pos];
    r := Some(Read(output[..pos], end + 1));
  }

  // ----- The writer -----

  /** The extra bytes escaping needs. */
  function EscapeCharacters(s: seq<byte>): nat {
    if s == [] then 0
    else EscapeCharacters(s[..|s| - 1]) + (|Escape(s[|s| - 1])| - 1)
  }

  lemma {:induction false} EscapeSnoc(s: seq<byte>, b: byte)
    ensures EscapeAll(s + [b]) == EscapeAll(s) + Escape(b)
    decreases |s|
  {
    if s == [] {
      assert [b][1..] == [] && s + [b] == [b];
      assert Escape(b) + [] == Escape(b);
    } else {
      assert (s + [b])[1..] == s[1..] + [b];
      EscapeSnoc(s[1..], b);
    }
  }

  /** The precomputed length is exactly the number of bytes written. */
  lemma {:induction false} LengthIsExact(s: seq<byte>)
    ensures |EscapeAll(s)| == |s| + EscapeCharacters(s)
    decreases |s|
  {
    if s != [] {
      LengthIsExact(s[..|s| - 1]);
      EscapeSnoc(s[..|s| - 1], s[|s| - 1]);
      assert s[..|s| - 1] + [s[|s| - 1]] == s;
    }
  }

  /** With nothing to escape the text is the string itself. */
  lemma {:induction false} NothingEscaped(s: seq<byte>)
    requires EscapeCharacters(s) == 0
    ensures EscapeAll(s) == s
    decreases |s|
  {
    if s != [] {
      NothingEscaped(s[..|s| - 1]);
      EscapeSnoc(s[..|s| - 1], s[|s| - 1]);
      assert s[..|s| - 1] + [s[|s| - 1]] == s;
    }
  }

  /** The first loop of print_string_ptr. */
  method CountEscapes(s: seq<byte>) returns (escapeCharacters: nat)
    ensures escapeCharacters == EscapeCharacters(s)
  {
    escapeCharacters := 0;
    for i := 0 to |s|
      invariant escapeCharacters == EscapeCharacters(s[..i])
    {
      assert s[..i + 1][..i] == s[..i];
      if s[i] == QUOTE || s[i] == BACKSLASH || EscapeLetter(s[i]) != 0 {
        escapeCharacters := escapeCharacters + 1;
      } else if s[i] < 32 {
        escapeCharacters := escapeCharacters + 5;
      }
    }
    assert s[..|s|] == s;
  }

  /** sprintf of u%04x for one byte. */
  method WriteUnit(b: byte, output: array<byte>, pos: nat)
    requires pos + 5 <= output.Length
    modifies output
    ensures output[pos..pos + 5] == [LOWER_U, 48, 48, HexDigit(b / 16), HexDigit(b % 16)]
    ensures forall i :: 0 <= i < output.Length && !(pos <= i < pos + 5) ==> output[i] == old(output[i])
  {
    output[pos], output[pos + 1], output[pos + 2] := LOWER_U, 48, 48;
    output[pos + 3], output[pos + 4] := HexDigit(b / 16), HexDigit(b % 16);
  }

  lemma EscapeIs(b: byte)
    ensures if b > 31 && b != QUOTE && b != BACKSLASH then Escape(b) == [b]
            else if b == QUOTE || b == BACKSLASH then Escape(b) == [BACKSLASH, b]
            else if EscapeLetter(b) != 0 then Escape(b) == [BACKSLASH, EscapeLetter(b)]
            else Escape(b) == [BACKSLASH] + [LOWER_U, 48, 48, HexDigit(b / 16), HexDigit(b % 16)]
  {
    hide HexDigit;
  }

  /** Writes one byte, escaped where needed. */
  method WriteEscaped(b: byte, output: array<byte>, pos: nat) returns (next: nat)
    requires pos + |Escape(b)| <= output.Length
    modifies output
    ensures next == pos + |Escape(b)| && output[..next] == old(output[..pos]) + Escape(b)
    ensures forall i :: next <= i < output.Length ==> output[i] == old(output[i])
  {
    hide HexDigit, EscapeLetter, Escape;
    EscapeIs(b);
    if b > 31 && b != QUOTE && b != BACKSLASH {
      output[pos] := b;
      next := pos + 1;
      assert output[pos..next] == [b];
    } else {
      output[pos] := BACKSLASH;
      if b == QUOTE || b == BACKSLASH {
        output[pos + 1] := b;
        next := pos + 2;
        assert output[pos..next] == [BACKSLASH, b];
      } else if EscapeLetter(b) != 0 {
        output[pos + 1] := EscapeLetter(b);
        next := pos + 2;
        assert output[pos..next] == [BACKSLASH, EscapeLetter(b)];
      } else {
        WriteUnit(b, output, pos + 1);
        next := pos + 6;
        assert output[pos..next] == [BACKSLASH] + output[pos + 1..next];
      }
    }
    assert output[pos..next] == Escape(b);
    assert output[..next] == output[..pos] + output[pos..next];
  }

  /** The second loop of print_string_ptr. */
  method WriteBody(s: seq<byte>, output: array<byte>, at: nat)
    requires at + |EscapeAll(s)| <= output.Length
    modifies output
    ensures output[..at + |EscapeAll(s)|] == old(output[..at]) + EscapeAll(s)
    ensures forall i :: at + |EscapeAll(s)| <= i < output.Length ==> output[i] == old(output[i])
  {
    hide Escape;
    var pos := at;
    ghost var front := output[..at];
    assert front + EscapeAll(s[..0]) == front;
    for i := 0 to |s|
      invariant pos == at + |EscapeAll(s[..i])| && pos + |EscapeAll(s[i..])| == at + |EscapeAll(s)|
      invariant output[..pos] == front + EscapeAll(s[..i])
      invariant forall k :: pos <= k < output.Length ==> output[k] == old(output[k])
    {
      assert s[..i + 1] == s[..i] + [s[i]] && s[i..][0] == s[i] && s[i..][1..] == s[i + 1..];
      EscapeSnoc(s[..i], s[i]);
      pos := WriteEscaped(s[i], output, pos);
      assert front + EscapeAll(s[..i]) + Escape(s[i]) == front + (EscapeAll(s[..i]) + Escape(s[i]));
    }
    assert s[..|s|] == s && s[|s|..] == [];
  }

  /** memcpy */
  method CopyBytes(s: seq<byte>, output: array<byte>, at: nat)
    requires at + |s| <= output.Length
    modifies output
    ensures output[..at + |s|] == old(output[..at]) + s
    ensures forall i :: at + |s| <= i < output.Length ==> output[i] == old(output[i])
  {
    for i := 0 to |s|
      invariant output[..at + i] == old(output[..at]) + s[..i]
      invariant forall k :: at + i <= k < output.Length ==> output[k] == old(output[k])
    {
      output[at + i] := s[i];
      assert output[..at + i + 1] == output[..at + i] + [s[i]];
      assert s[..i + 1] == s[..i] + [s[i]];
    }
    assert s[..|s|] == s;
  }

  /**
    print_string_ptr at position `at` of a buffer with exactly the reserved room: the text, a
    terminator, and nothing beyond.
   */
  method WriteString(s: seq<byte>, escapeCharacters: nat, output: array<byte>, at: nat)
    requires escapeCharacters == EscapeCharacters(s) && at + |s| + escapeCharacters + 3 <= output.Length
    modifies output
    ensures |PrintString(s)| == |s| + escapeCharacters + 2 && output[at + |PrintString(s)|] == 0
    ensures output[..at + |PrintString(s)|] == old(output[..at]) + PrintString(s)
    ensures forall i :: at + |PrintString(s)| < i < output.Length ==> output[i] == old(output[i])
  {
    hide EscapeAll, EscapeCharacters;
    LengthIsExact(s);
    var outputLength := |s| + escapeCharacters;
    ghost var front := output[..at];
    output[at] := QUOTE;
    assert output[..at + 1] == front + [QUOTE];
    if escapeCharacters == 0 {
      NothingEscaped(s);
      CopyBytes(s, output, at + 1);
    } else {
      WriteBody(s, output, at + 1);
    }
    var last := at + 1 + outputLength;
    output[last] := QUOTE;
    output[last + 1] := 0;
    assert output[..last + 1] == output[..last] + [QUOTE];
    assert front + [QUOTE] + EscapeAll(s) + [QUOTE] == front + PrintString(s);
  }
}
