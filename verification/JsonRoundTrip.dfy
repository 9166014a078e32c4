/**
  What the two printers write is a text of the grammar that means the value, with the white space laid
  out as follows; so parsing what was printed gives the value back (cm/src/cJSON.c:826-946, 1267-1717).
 */
module JsonRoundTrip {
  import opened Bytes
  import opened JsonText
  import opened JsonValue
  import opened JsonGrammar
  import opened JsonAccepts

  // ----- Strings as they are written -----

  /** A letter where there is one, a code of four lower-case digits for other control characters, else the byte itself. */
  function WrittenChar(b: byte): Char {
    if b == 34 || b == 92 then Letter(b)
    else if b == 8 then Letter(98)
    else if b == 12 then Letter(102)
    else if b == 10 then Letter(110)
    else if b == 13 then Letter(114)
    else if b == 9 then Letter(116)
    else if b < 32 then Unit([48, 48, 48 + b / 16, if b % 16 < 10 then 48 + b % 16 else 87 + b % 16], b)
    else Raw(b)
  }

  lemma CharWritten(b: byte)
    ensures var ch := WrittenChar(b); CharOk(ch) && CharText(ch) == Escape(b) && CharMeans(ch) == [b]
  {
    if b < 32 { ControlCode(b); }
    hide HexCode;
  }

  lemma ControlCode(b: byte)
    requires b < 32
    ensures HexCode([48, 48, 48 + b / 16, if b % 16 < 10 then 48 + b % 16 else 87 + b % 16], b) && (b as nat) / 256 == 0
  {
    var n: nat := b;
    assert n / 4096 == 0 && n / 256 % 16 == 0 && n / 16 % 16 == n / 16;
  }

  function Written(s: seq<byte>): seq<Char> {
    if s == [] then [] else [WrittenChar(s[0])] + Written(s[1..])
  }

  lemma {:induction false} QuotelessMore(b: byte, rest: seq<byte>)
    requires Quoteless(rest)
    ensures Quoteless(Escape(b) + rest)
  {
    var e := Escape(b);
    var all := e + rest;
    if |e| == 1 {
      assert all[1..] == rest;
    } else if |e| == 2 {
      assert all[2..] == rest;
    } else {
      assert all[2..] == [48, 48, HexDigit(b / 16), HexDigit(b % 16)] + rest;
      FourRaw([48, 48, HexDigit(b / 16), HexDigit(b % 16)], rest);
    }
  }

  lemma {:induction false} FourRaw(raw: seq<byte>, rest: seq<byte>)
    requires Quoteless(rest) && forall i :: 0 <= i < |raw| ==> raw[i] != 92 && raw[i] != 34
    ensures Quoteless(raw + rest)
    decreases |raw|
  {
    if raw == [] {
      assert raw + rest == rest;
    } else {
      FourRaw(raw[1..], rest);
      assert (raw + rest)[1..] == raw[1..] + rest;
    }
  }

  lemma {:induction false} StringWritten(s: seq<byte>)
    ensures var w := Written(s);
            CharsOk(w) && Body(w) == EscapeAll(s) && StringMeans(w) == s && Quoteless(EscapeAll(s))
    decreases |s|
  {
    hide WrittenChar, CharText, CharMeans, Escape, CharOk;
    if s != [] {
      CharWritten(s[0]);
      StringWritten(s[1..]);
      QuotelessMore(s[0], EscapeAll(s[1..]));
      assert Written(s)[1..] == Written(s[1..]) && s == [s[0]] + s[1..];
    }
  }

  function WrittenString(s: seq<byte>): Str {
    Str(EscapeAll(s), Written(s))
  }

  lemma IsWritten(s: seq<byte>)
    ensures StrOk(WrittenString(s)) && StrText(WrittenString(s)) == PrintString(s) && StrMeans(WrittenString(s)) == s
  {
    hide Quoteless, CharsOk, Body, EscapeAll, Written, StringMeans;
    StringWritten(s);
  }

  // ----- The layout -----

  /** A new line and `d` tabs, in the formatted print. */
  function NewLine(fmt: bool, d: nat): seq<byte> {
    if fmt then [10] + seq(d, _ => 9) else []
  }

  /**
    The value as it is printed at depth `d`.  The unformatted print has no white space.  The formatted
    one has a blank behind each comma of an array, each member of an object on a line of its own behind
    as many tabs as it is deep, a tab behind the colon, and the closing brace on a line of its own.
   */
  function Printed(cd: Codec, v: Json, fmt: bool, d: nat): Syntax {
    match v
    case JNull => Null
    case JFalse => False
    case JTrue => True
    case JNumber(n) => if IsFinite(n) then Num(cd.show(n), n) else Null
    case JString(s) => Quoted(WrittenString(s))
    case JArray(items) => if items == NoItem then EmptyArray([]) else Array(PrintedItems(cd, items, fmt, d + 1, []))
    case JObject(members) =>
      if members == NoMember then EmptyObject(NewLine(fmt, d)) else Object(PrintedMembers(cd, members, fmt, d + 1))
  }

  function PrintedItems(cd: Codec, items: Items, fmt: bool, d: nat, before: seq<byte>): Elems {
    match items
    case NoItem => NoElem
    case Item(v, next) => Elem(before, Printed(cd, v, fmt, d), [], PrintedItems(cd, next, fmt, d, if fmt then [32] else []))
  }

  function PrintedMembers(cd: Codec, members: Members, fmt: bool, d: nat): Fields {
    match members
    case NoMember => NoField
    case Member(key, v, next) =>
      Field(NewLine(fmt, d), WrittenString(key), [], if fmt then [9] else [], Printed(cd, v, fmt, d),
            if next == NoMember && d > 0 then NewLine(fmt, d - 1) else [], PrintedMembers(cd, next, fmt, d))
  }

  // ----- It is well formed and means the value -----

  lemma WhiteLine(fmt: bool, d: nat)
    ensures White(NewLine(fmt, d))
  {
  }

  lemma NumberPrinted(cd: Codec, n: Number)
    requires CodecOk(cd) && IsFinite(n)
    ensures NumOk(cd, cd.show(n), n)
  {
    forall i | 0 <= i < |cd.show(n)| ensures 48 <= cd.show(n)[i] <= 57 || cd.show(n)[i] in [43, 45, 46, 69, 101] {
      assert NumberByte(cd.show(n)[i]);
    }
  }

  lemma {:induction false} PrintedMeans(cd: Codec, v: Json, fmt: bool, d: nat)
    requires CodecOk(cd)
    ensures WellFormed(cd, Printed(cd, v, fmt, d)) && Value(cd, Printed(cd, v, fmt, d)) == Printable(v)
    decreases v
  {
    hide NumOk, StrOk, StrMeans, WrittenString, White, CodecOk, NewLine;
    match v
    case JNumber(n) => if IsFinite(n) { NumberPrinted(cd, n); }
    case JString(s) => IsWritten(s);
    case JArray(items) =>
      NoWhite();
      ItemsMean(cd, items, fmt, d + 1, []);
    case JObject(members) =>
      WhiteLine(fmt, d);
      MembersMean(cd, members, fmt, d + 1);
    case _ =>
  }

  lemma NoWhite()
    ensures White([]) && White([32]) && White([9])
  {
  }

  lemma {:induction false} ItemsMean(cd: Codec, items: Items, fmt: bool, d: nat, before: seq<byte>)
    requires CodecOk(cd) && White(before)
    ensures ElemsOk(cd, PrintedItems(cd, items, fmt, d, before))
    ensures ElemsValue(cd, PrintedItems(cd, items, fmt, d, before)) == PrintableItems(items)
    decreases items
  {
    hide Printed, Printable, Value, WellFormed, CodecOk, White;
    if items != NoItem {
      NoWhite();
      PrintedMeans(cd, items.value, fmt, d);
      ItemsMean(cd, items.next, fmt, d, if fmt then [32] else []);
    }
  }

  lemma {:induction false} MembersMean(cd: Codec, members: Members, fmt: bool, d: nat)
    requires CodecOk(cd)
    ensures FieldsOk(cd, PrintedMembers(cd, members, fmt, d))
    ensures FieldsValue(cd, PrintedMembers(cd, members, fmt, d)) == PrintableMembers(members)
    decreases members
  {
    hide Printed, Printable, Value, WellFormed, CodecOk, White, NewLine, WrittenString, StrOk, StrMeans;
    if members != NoMember {
      NoWhite();
      WhiteLine(fmt, d);
      if d > 0 { WhiteLine(fmt, d - 1); }
      IsWritten(members.key);
      PrintedMeans(cd, members.value, fmt, d);
      MembersMean(cd, members.next, fmt, d);
    }
  }

  // ----- Its text is what is printed -----

  lemma {:induction false} PrintedText(cd: Codec, v: Json, fmt: bool, d: nat)
    ensures Text(Printed(cd, v, fmt, d)) == PrintValue(cd, v, fmt, d)
    decreases v, 0
  {
    match v
    case JString(s) =>
      hide WrittenString, StrText, PrintString;
      IsWritten(s);
    case JArray(items) =>
      hide PrintItems, ElemsText;
      if items == NoItem {
        NothingPrinted(cd, fmt, d + 1);
      } else {
        ItemsText(cd, items, fmt, d + 1, []);
      }
    case JObject(members) => ObjectText(cd, members, fmt, d);
    case _ =>
  }

  lemma {:induction false} ObjectText(cd: Codec, members: Members, fmt: bool, d: nat)
    ensures Text(Printed(cd, JObject(members), fmt, d)) == PrintValue(cd, JObject(members), fmt, d)
    decreases members, 2
  {
    hide PrintMembers, FieldsText, PrintedMembers, NewLine, Tabs, Only;
    var n, close := Only(fmt, [10]), Only(fmt, Tabs(d));
    Lines(fmt, d);
    if members == NoMember {
      NothingPrinted(cd, fmt, d + 1);
    } else {
      MembersText(cd, members, fmt, d + 1);
      ObjectRegrouped(n, PrintMembers(cd, members, fmt, d + 1), close);
    }
  }

  lemma ObjectRegrouped(n: seq<byte>, body: seq<byte>, close: seq<byte>)
    ensures [123] + (n + body + close + [125]) == [123] + n + body + close + [125]
  {
  }

  lemma {:induction false} NothingPrinted(cd: Codec, fmt: bool, d: nat)
    ensures PrintItems(cd, NoItem, fmt, d) == [] && PrintMembers(cd, NoMember, fmt, d) == []
  {
  }

  lemma Lines(fmt: bool, d: nat)
    ensures NewLine(fmt, d) == Only(fmt, [10]) + Only(fmt, Tabs(d))
  {
    assert seq(d, _ => 9) == Tabs(d);
  }

  lemma {:induction false} ItemsUnfold(cd: Codec, items: Items, fmt: bool, d: nat, before: seq<byte>)
    requires items.Item?
    ensures PrintItems(cd, items, fmt, d) ==
              PrintValue(cd, items.value, fmt, d) + (if items.next == NoItem then [] else [44] + Only(fmt, [32]))
              + PrintItems(cd, items.next, fmt, d)
    ensures var next := PrintedItems(cd, items.next, fmt, d, Only(fmt, [32]));
            && (next == NoElem <==> items.next == NoItem)
            && ElemsText(PrintedItems(cd, items, fmt, d, before)) ==
                 before + (Text(Printed(cd, items.value, fmt, d)) + ([] + (if next == NoElem then [93] else [44] + ElemsText(next))))
  {
    hide Printed, PrintValue, Text;
    var elems, next := PrintedItems(cd, items, fmt, d, before), PrintedItems(cd, items.next, fmt, d, Only(fmt, [32]));
    assert elems.next == next && elems.after == [];
    assert ElemsTail(next) == if next == NoElem then [93] else [44] + ElemsText(next);
  }

  lemma {:induction false} ItemsText(cd: Codec, items: Items, fmt: bool, d: nat, before: seq<byte>)
    requires items.Item?
    ensures ElemsText(PrintedItems(cd, items, fmt, d, before)) == before + (PrintItems(cd, items, fmt, d) + [93])
    decreases items, 1
  {
    hide Printed, PrintValue, Text, PrintItems, PrintedItems, ElemsText, Only;
    var v, blank, rest := PrintValue(cd, items.value, fmt, d), Only(fmt, [32]), PrintItems(cd, items.next, fmt, d);
    ItemsUnfold(cd, items, fmt, d, before);
    PrintedText(cd, items.value, fmt, d);
    if items.next != NoItem {
      ItemsText(cd, items.next, fmt, d, blank);
      ItemRegrouped(v, blank, rest);
    } else {
      NothingPrinted(cd, fmt, d);
      LastItem(v);
    }
  }

  lemma ItemRegrouped(v: seq<byte>, blank: seq<byte>, rest: seq<byte>)
    ensures v + ([] + ([44] + (blank + (rest + [93])))) == v + ([44] + blank) + rest + [93]
  {
  }

  lemma LastItem(v: seq<byte>)
    ensures v + ([] + [93]) == v + [] + [] + [93]
  {
  }

  lemma {:induction false} MembersUnfold(cd: Codec, members: Members, fmt: bool, d: nat)
    requires members.Member?
    ensures PrintMembers(cd, members, fmt, d) ==
              Only(fmt, Tabs(d)) + PrintString(members.key) + ([58] + Only(fmt, [9])) + PrintValue(cd, members.value, fmt, d)
              + ((if members.next == NoMember then [] else [44]) + Only(fmt, [10])) + PrintMembers(cd, members.next, fmt, d)
  {
    hide PrintValue, PrintString, Tabs, Only;
  }

  lemma {:induction false} FieldsUnfold(cd: Codec, members: Members, fmt: bool, d: nat)
    requires members.Member? && d > 0
    ensures var next := PrintedMembers(cd, members.next, fmt, d);
            && (next == NoField <==> members.next == NoMember)
            && FieldsText(PrintedMembers(cd, members, fmt, d)) ==
                 NewLine(fmt, d) + (StrText(WrittenString(members.key)) + ([] + ([58] + (Only(fmt, [9]) +
                   (Text(Printed(cd, members.value, fmt, d)) + ((if next == NoField then NewLine(fmt, d - 1) else []) +
                     (if next == NoField then [125] else [44] + FieldsText(next))))))))
  {
    hide Printed, Text, StrText, WrittenString, NewLine;
    var f, next := PrintedMembers(cd, members, fmt, d), PrintedMembers(cd, members.next, fmt, d);
    var tail := if next == NoField then [125] else [44] + FieldsText(next);
    assert f.next == next && f.after == (if next == NoField then NewLine(fmt, d - 1) else []);
    assert FieldsTail(next) == tail;
    assert ValueText(f) == Only(fmt, [9]) + (Text(f.value) + (f.after + tail));
  }

  lemma {:induction false} MembersText(cd: Codec, members: Members, fmt: bool, d: nat)
    requires members.Member? && d > 0
    ensures FieldsText(PrintedMembers(cd, members, fmt, d)) ==
              Only(fmt, [10]) + PrintMembers(cd, members, fmt, d) + Only(fmt, Tabs(d - 1)) + [125]
    decreases members, 1
  {
    hide Printed, PrintValue, Text, StrText, WrittenString, PrintString, NewLine, Tabs, Only, PrintMembers, PrintedMembers, FieldsText;
    MembersUnfold(cd, members, fmt, d);
    FieldsUnfold(cd, members, fmt, d);
    var n, t, tab, close := Only(fmt, [10]), Only(fmt, Tabs(d)), Only(fmt, [9]), Only(fmt, Tabs(d - 1));
    var k, v := PrintString(members.key), PrintValue(cd, members.value, fmt, d);
    Lines(fmt, d);
    Lines(fmt, d - 1);
    IsWritten(members.key);
    PrintedText(cd, members.value, fmt, d);
    if members.next != NoMember {
      MembersText(cd, members.next, fmt, d);
      NextRegrouped(n, t, k, tab, v, PrintMembers(cd, members.next, fmt, d), close);
    } else {
      NothingPrinted(cd, fmt, d);
      LastRegrouped(n, t, k, tab, v, close);
    }
  }

  lemma NextRegrouped(n: seq<byte>, t: seq<byte>, k: seq<byte>, tab: seq<byte>, v: seq<byte>, rest: seq<byte>, close: seq<byte>)
    ensures (n + t) + (k + ([] + ([58] + (tab + (v + ([] + ([44] + (n + rest + close + [125])))))))) ==
              n + (t + k + ([58] + tab) + v + ([44] + n) + rest) + close + [125]
  {
  }

  lemma LastRegrouped(n: seq<byte>, t: seq<byte>, k: seq<byte>, tab: seq<byte>, v: seq<byte>, close: seq<byte>)
    ensures (n + t) + (k + ([] + ([58] + (tab + (v + ((n + close) + [125])))))) ==
              n + (t + k + ([58] + tab) + v + ([] + n) + []) + close + [125]
  {
  }

  // ----- The round trip -----

  /** What is printed is a text of the grammar, laid out as `Printed`, and means the value. */
  lemma PrintIsLaidOut(cd: Codec, v: Json, fmt: bool, d: nat)
    requires CodecOk(cd)
    ensures var s := Printed(cd, v, fmt, d);
            PrintValue(cd, v, fmt, d) == Text(s) && WellFormed(cd, s) && Value(cd, s) == Printable(v)
  {
    PrintedText(cd, v, fmt, d);
    PrintedMeans(cd, v, fmt, d);
    hide PrintValue, Printed, Text, Value, WellFormed;
  }

  lemma NothingAround(text: seq<byte>)
    ensures [] + ([] + (text + [])) == text
  {
  }

  lemma {:induction false} SameHeight(v: Json)
    ensures Height(Printable(v)) == Height(v)
    decreases v
  {
    match v
    case JArray(items) => SameItemsHeight(items);
    case JObject(members) => SameMembersHeight(members);
    case _ =>
  }

  lemma {:induction false} SameItemsHeight(items: Items)
    ensures ItemsHeight(PrintableItems(items)) == ItemsHeight(items)
    decreases items
  {
    if items != NoItem {
      SameHeight(items.value);
      SameItemsHeight(items.next);
    }
  }

  lemma {:induction false} SameMembersHeight(members: Members)
    ensures MembersHeight(PrintableMembers(members)) == MembersHeight(members)
    decreases members
  {
    if members != NoMember {
      SameHeight(members.value);
      SameMembersHeight(members.next);
    }
  }

  /** A printed value is read back wherever it stands in a text, unless that is too deep for it. */
  lemma {:induction false} ValueReads(cd: Codec, c: seq<byte>, p: nat, v: Json, fmt: bool, d: nat, pd: nat)
    requires CodecOk(cd) && Terminated(c) && Stands(c, p, PrintValue(cd, v, fmt, d)) && Ends(c, p + |PrintValue(cd, v, fmt, d)|)
    requires pd <= CJSON_NESTING_LIMIT
    ensures p < |c| && ParseValue(cd, c, p, pd) ==
              if Height(v) + pd <= CJSON_NESTING_LIMIT then Some(Read(Printable(v), p + |PrintValue(cd, v, fmt, d)|)) else None
  {
    hide ParseValue, PrintValue, Printed, Text, Value, WellFormed, Height, Stands;
    PrintIsLaidOut(cd, v, fmt, d);
    SameHeight(v);
    SyntaxReads(cd, c, p, Printed(cd, v, fmt, d), pd);
  }

  /**
    Whatever the printer, parsing a printed value gives the value back, types, keys, strings and the
    order of children, exactly when it is nested at most 1000 deep; only infinities and NaNs become null.
   */
  lemma ParseInvertsPrint(cd: Codec, v: Json, fmt: bool, whole: bool)
    requires CodecOk(cd)
    ensures Parse(cd, PrintValue(cd, v, fmt, 0), whole) == if Height(v) <= CJSON_NESTING_LIMIT then Some(Printable(v)) else None
  {
    hide Parse, PrintValue, Printed, Text, Value, WellFormed, Height;
    var s := Printed(cd, v, fmt, 0);
    PrintIsLaidOut(cd, v, fmt, 0);
    SameHeight(v);
    NothingAround(Text(s));
    SpelledParses(cd, [], [], s, [], whole);
  }
}
