/**
  The printer of cm/src/cJSON.c:350-530, 955-958, 1085-1147, 1266-1346, 1441-1500, 1565-1690 on its
  growing buffer.  Every write is behind a reservation (`Ensure`); a value that was printed is in the
  buffer with a terminator behind it, and the position catches up afterwards (`UpdateOffset`).
  Allocation succeeds; a reservation fails for a preallocated buffer that is too small, and beyond INT_MAX.
 */
module JsonPrinter {
  import opened Bytes
  import opened JsonText
  import opened JsonString
  import opened JsonValue

  const INT_MAX: nat := 0x7fff_ffff

  // ----- Printed text has no NUL -----

  predicate NoNul(s: seq<byte>) {
    forall i :: 0 <= i < |s| ==> s[i] != 0
  }

  lemma NoNulBoth(a: seq<byte>, b: seq<byte>)
    requires NoNul(a) && NoNul(b)
    ensures NoNul(a + b)
  {
  }

  lemma {:induction false} EscapedNoNul(s: seq<byte>)
    ensures NoNul(EscapeAll(s))
    decreases |s|
  {
    if s != [] {
      EscapedNoNul(s[1..]);
      NoNulBoth(Escape(s[0]), EscapeAll(s[1..]));
    }
  }

  lemma StringNoNul(s: seq<byte>)
    ensures NoNul(PrintString(s))
  {
    EscapedNoNul(s);
  }

  lemma {:induction false} ValueNoNul(cd: Codec, v: Json, fmt: bool, d: nat)
    requires CodecOk(cd)
    ensures NoNul(PrintValue(cd, v, fmt, d))
    decreases v
  {
    hide CodecOk, PrintItems, PrintMembers, PrintString, Tabs, Only;
    match v
    case JNumber(n) => if IsFinite(n) { NumberNoNul(cd, n); }
    case JString(s) => StringNoNul(s);
    case JArray(items) =>
      ItemsNoNul(cd, items, fmt, d + 1);
      ArrayNoNul(PrintItems(cd, items, fmt, d + 1));
    case JObject(members) =>
      MembersNoNul(cd, members, fmt, d + 1);
      ObjectNoNul(PrintMembers(cd, members, fmt, d + 1), fmt, d);
    case _ =>
  }

  lemma ArrayNoNul(s: seq<byte>)
    requires NoNul(s)
    ensures NoNul([OPEN_BRACKET] + s + [CLOSE_BRACKET])
  {
  }

  lemma ObjectNoNul(s: seq<byte>, fmt: bool, d: nat)
    requires NoNul(s)
    ensures NoNul([OPEN_BRACE] + Only(fmt, [10]) + s + Only(fmt, Tabs(d)) + [CLOSE_BRACE])
  {
  }

  lemma NumberNoNul(cd: Codec, n: Number)
    requires CodecOk(cd) && IsFinite(n)
    ensures NoNul(cd.show(n)) && 1 <= |cd.show(n)| <= 25
  {
    forall i | 0 <= i < |cd.show(n)|
      ensures cd.show(n)[i] != 0
    {
      assert NumberByte(cd.show(n)[i]);
    }
  }

  lemma {:induction false} ItemsNoNul(cd: Codec, items: Items, fmt: bool, d: nat)
    requires CodecOk(cd)
    ensures NoNul(PrintItems(cd, items, fmt, d))
    decreases items
  {
    if items.Item? {
      ValueNoNul(cd, items.value, fmt, d);
      ItemsNoNul(cd, items.next, fmt, d);
      NoNulBoth(PrintValue(cd, items.value, fmt, d), ItemSeparator(items.next, fmt));
    }
  }

  lemma {:induction false} MembersNoNul(cd: Codec, members: Members, fmt: bool, d: nat)
    requires CodecOk(cd)
    ensures NoNul(PrintMembers(cd, members, fmt, d))
    decreases members
  {
    if members.Member? {
      StringNoNul(members.key);
      ValueNoNul(cd, members.value, fmt, d);
      MembersNoNul(cd, members.next, fmt, d);
      var a := Only(fmt, Tabs(d)) + PrintString(members.key) + ([COLON] + Only(fmt, [9]));
      NoNulBoth(a, PrintValue(cd, members.value, fmt, d));
      NoNulBoth(a + PrintValue(cd, members.value, fmt, d), MemberSeparator(members.next, fmt));
    }
  }

  // ----- Sizes, for termination -----

  function Size(v: Json): nat {
    match v
    case JArray(items) => 1 + ItemsSize(items)
    case JObject(members) => 1 + MembersSize(members)
    case _ => 0
  }

  function ItemsSize(items: Items): nat {
    match items
    case NoItem => 0
    case Item(v, next) => 1 + Size(v) + ItemsSize(next)
  }

  function MembersSize(members: Members): nat {
    match members
    case NoMember => 0
    case Member(_, v, next) => 1 + Size(v) + MembersSize(next)
  }

  // ----- Texts in parts -----

  lemma Together(a: seq<byte>, b: seq<byte>, c: seq<byte>, goal: seq<byte>)
    requires a + (b + c) == goal
    ensures a + b + c == goal
  {
  }

  lemma {:induction false} ItemsPart(cd: Codec, items: Items, fmt: bool, d: nat, text: seq<byte>, goal: seq<byte>)
    requires items.Item? && text + PrintItems(cd, items, fmt, d) == goal
    ensures text + (JsonValue.PrintValue(cd, items.value, fmt, d) + ItemSeparator(items.next, fmt)) + PrintItems(cd, items.next, fmt, d) == goal
  {
    var part := JsonValue.PrintValue(cd, items.value, fmt, d) + ItemSeparator(items.next, fmt);
    assert PrintItems(cd, items, fmt, d) == part + PrintItems(cd, items.next, fmt, d);
    Together(text, part, PrintItems(cd, items.next, fmt, d), goal);
  }

  /** A member as one turn of the loop prints it. */
  function MemberText(cd: Codec, m: Members, fmt: bool, d: nat): seq<byte>
    requires m.Member?
  {
    MemberHead(m.key, fmt, d) + JsonValue.PrintValue(cd, m.value, fmt, d) + MemberSeparator(m.next, fmt)
  }

  function MemberHead(key: seq<byte>, fmt: bool, d: nat): seq<byte> {
    Only(fmt, Tabs(d)) + JsonText.PrintString(key) + ([COLON] + Only(fmt, [9]))
  }

  lemma {:induction false} MembersPart(cd: Codec, m: Members, fmt: bool, d: nat, text: seq<byte>, goal: seq<byte>)
    requires m.Member? && text + PrintMembers(cd, m, fmt, d) == goal
    ensures text + MemberText(cd, m, fmt, d) + PrintMembers(cd, m.next, fmt, d) == goal
  {
    assert PrintMembers(cd, m, fmt, d) == MemberText(cd, m, fmt, d) + PrintMembers(cd, m.next, fmt, d);
    Together(text, MemberText(cd, m, fmt, d), PrintMembers(cd, m.next, fmt, d), goal);
  }

  lemma {:induction false} NothingMore(cd: Codec, fmt: bool, d: nat, text: seq<byte>)
    ensures text + PrintItems(cd, NoItem, fmt, d) == text && text + PrintMembers(cd, NoMember, fmt, d) == text
  {
  }

  lemma {:induction false} ArrayText(cd: Codec, items: Items, fmt: bool, d: nat, before: seq<byte>)
    ensures before + [OPEN_BRACKET] + PrintItems(cd, items, fmt, d + 1) + [CLOSE_BRACKET]
         == before + JsonValue.PrintValue(cd, JArray(items), fmt, d)
    ensures |before + [OPEN_BRACKET] + PrintItems(cd, items, fmt, d + 1)| + 1
         == |before| + |JsonValue.PrintValue(cd, JArray(items), fmt, d)|
  {
    hide PrintItems;
  }

  lemma {:induction false} ObjectText(cd: Codec, members: Members, fmt: bool, d: nat, before: seq<byte>)
    ensures before + ([OPEN_BRACE] + Only(fmt, [10])) + PrintMembers(cd, members, fmt, d + 1) + (Only(fmt, Tabs(d)) + [CLOSE_BRACE])
         == before + JsonValue.PrintValue(cd, JObject(members), fmt, d)
    ensures |before + ([OPEN_BRACE] + Only(fmt, [10])) + PrintMembers(cd, members, fmt, d + 1)| + |Only(fmt, Tabs(d)) + [CLOSE_BRACE]|
         == |before| + |JsonValue.PrintValue(cd, JObject(members), fmt, d)|
  {
    hide PrintMembers, Only, Tabs;
  }

  class PrintBuffer {
    var buffer: array<byte>
    var offset: nat
    var depth: nat
    const noalloc: bool
    const format: bool

    constructor (length: nat, noalloc: bool, format: bool)
      ensures Valid() && Text() == [] && depth == 0 && fresh(buffer) && buffer.Length == length
      ensures this.noalloc == noalloc && this.format == format
    {
      buffer := new byte[length](_ => 0);
      offset, depth := 0, 0;
      this.noalloc, this.format := noalloc, format;
    }

    ghost predicate Valid()
      reads this
    {
      offset < buffer.Length || offset == buffer.Length == 0
    }

    /** Text up to `end` can be printed: a preallocated buffer must be two bytes longer than the text. */
    ghost predicate Room(end: nat)
      reads this, buffer
    {
      end + 2 <= INT_MAX && (noalloc ==> end + 2 <= buffer.Length)
    }

    /** What has been printed. */
    ghost function Text(): seq<byte>
      reads this, buffer
      requires Valid()
    {
      buffer[..offset]
    }

    /** The buffer holds `text` and a terminator; the position may still be behind. */
    ghost predicate Holds(text: seq<byte>)
      reads this, buffer
    {
      offset <= |text| < buffer.Length && buffer[..|text|] == text && buffer[|text|] == 0
    }

    /** What a print that succeeded says about the size of a preallocated buffer. */
    ghost predicate Enough(end: nat)
      reads this, buffer
    {
      noalloc ==> end + 2 <= buffer.Length
    }

    /** ensure: room for `needed` more bytes and a terminator. */
    method Ensure(needed: nat) returns (ok: bool)
      requires Valid()
      modifies this`buffer
      ensures Valid() && Text() == old(Text()) && (buffer == old(buffer) || (fresh(buffer) && !noalloc))
      ensures ok ==> offset + needed + 1 <= buffer.Length
      ensures ok <==> needed <= INT_MAX && (offset + needed + 1 <= old(buffer.Length) || (!noalloc && offset + needed + 1 <= INT_MAX))
    {
      if (buffer.Length > 0 && offset >= buffer.Length) || needed > INT_MAX {
        return false;
      }
      var total := needed + offset + 1;
      if total <= buffer.Length {
        return true;
      }
      if noalloc {
        return false;
      }
      var newsize := total * 2;
      if total > INT_MAX / 2 {
        if total > INT_MAX {
          return false;
        }
        newsize := INT_MAX;
      }
      var newbuffer := new byte[newsize](_ => 0);
      ghost var text := buffer[..offset];
      for i := 0 to offset
        invariant offset <= buffer.Length && newbuffer[..i] == text[..i] && buffer[..offset] == text
      {
        newbuffer[i] := buffer[i];
        assert newbuffer[..i + 1] == newbuffer[..i] + [newbuffer[i]];
        assert text[..i + 1] == text[..i] + [text[i]];
      }
      assert text[..offset] == text;
      buffer := newbuffer;
      ok := true;
    }

    /** update_offset: the position moves to the terminator. */
    method UpdateOffset(ghost text: seq<byte>)
      requires Holds(text) && NoNul(text[offset..])
      modifies this`offset
      ensures Valid() && Text() == text && offset < buffer.Length
    {
      forall i | offset <= i < |text|
        ensures text[i] != 0
      {
        assert text[offset..][i - offset] == text[i];
      }
      while buffer[offset] != 0
        invariant Holds(text) && old(offset) <= offset
        decreases |text| - offset
      {
        assert offset < |text| by { assert buffer[|text|] == 0; }
        offset := offset + 1;
      }
    }

    /** Writes `bytes` at the position, which moves on. */
    method Put(bytes: seq<byte>, needed: nat) returns (ok: bool)
      requires Valid() && |bytes| <= needed <= |bytes| + 1
      modifies this`buffer, this`offset, buffer
      ensures Valid() && (buffer == old(buffer) || (fresh(buffer) && !noalloc))
      ensures ok ==> Text() == old(Text()) + bytes
      ensures old(Room(offset + |bytes|)) ==> ok
    {
      ok := Ensure(needed);
      if ok {
        CopyBytes(bytes, buffer, offset);
        offset := offset + |bytes|;
      }
    }

    /** Writes `bytes` and a terminator, and moves on to it. */
    method PutSeparator(bytes: seq<byte>, needed: nat) returns (ok: bool)
      requires Valid() && needed == |bytes| + 1
      modifies this`buffer, this`offset, buffer
      ensures Valid() && (buffer == old(buffer) || (fresh(buffer) && !noalloc))
      ensures ok ==> Text() == old(Text()) + bytes
      ensures old(Room(offset + |bytes|)) ==> ok
    {
      ok := PutTerminated(bytes, needed);
      if ok {
        offset := offset + |bytes|;
      }
    }

    /** Writes `bytes` and a terminator; the position stays. */
    method PutTerminated(bytes: seq<byte>, needed: nat) returns (ok: bool)
      requires Valid() && needed == |bytes| + 1
      modifies this`buffer, buffer
      ensures Valid() && (buffer == old(buffer) || (fresh(buffer) && !noalloc))
      ensures ok ==> Holds(old(Text()) + bytes) && Enough(offset + |bytes|)
      ensures old(Room(offset + |bytes|)) ==> ok
    {
      ok := Ensure(needed);
      if ok {
        ghost var text := Text();
        CopyBytes(bytes, buffer, offset);
        buffer[offset + |bytes|] := 0;
        assert buffer[..|text + bytes|] == text + bytes;
      }
    }

    /** print_string_ptr */
    method PrintString(s: seq<byte>) returns (ok: bool)
      requires Valid()
      modifies this`buffer, buffer
      ensures Valid() && (buffer == old(buffer) || (fresh(buffer) && !noalloc))
      ensures ok ==> offset == old(offset) && Holds(old(Text()) + JsonText.PrintString(s))
      ensures ok ==> Enough(offset + |JsonText.PrintString(s)|)
      ensures old(Room(offset + |JsonText.PrintString(s)|)) ==> ok
    {
      var escapeCharacters := CountEscapes(s);
      var outputLength := |s| + escapeCharacters;
      LengthIsExact(s);
      ok := Ensure(outputLength + 3);
      if ok {
        ghost var text := Text();
        WriteString(s, escapeCharacters, buffer, offset);
        assert |text + JsonText.PrintString(s)| == offset + |JsonText.PrintString(s)|;
      }
    }

    /** print_number */
    method PrintNumber(cd: Codec, n: Number) returns (ok: bool)
      requires Valid() && CodecOk(cd)
      modifies this`buffer, this`offset, buffer
      ensures Valid() && (buffer == old(buffer) || (fresh(buffer) && !noalloc))
      ensures var text := JsonValue.PrintValue(cd, JNumber(n), format, depth);
              && (ok ==> old(offset) <= offset && Holds(old(Text()) + text) && Enough(old(offset) + |text|))
              && (old(Room(offset + |text|)) ==> ok)
    {
      if IsFinite(n) { NumberNoNul(cd, n); }
      var text := if IsFinite(n) then cd.show(n) else NULL_TEXT;
      if |text| > 25 {
        return false;
      }
      ok := PutTerminated(text, |text| + 1);
      if ok {
        offset := offset + |text|;
      }
    }

    /** print_value; `text` is what was there before. */
    method PrintValue(cd: Codec, v: Json) returns (ok: bool)
      requires Valid() && CodecOk(cd)
      modifies this, buffer
      ensures Valid() && (buffer == old(buffer) || (fresh(buffer) && !noalloc)) && (ok ==> depth == old(depth))
      ensures var text := JsonValue.PrintValue(cd, v, format, old(depth));
              && (ok ==> old(offset) <= offset && Holds(old(Text()) + text) && Enough(old(offset) + |text|))
              && (old(Room(offset + |text|)) ==> ok)
      decreases Size(v), 1
    {
      match v
      case JNull => ok := PutTerminated(NULL_TEXT, 5);
      case JFalse => ok := PutTerminated(FALSE_TEXT, 6);
      case JTrue => ok := PutTerminated(TRUE_TEXT, 5);
      case JNumber(n) => ok := PrintNumber(cd, n);
      case JString(s) => ok := PrintString(s);
      case JArray(items) => ok := PrintArray(cd, items);
      case JObject(members) => ok := PrintObject(cd, members);
    }

    /** print_value and update_offset. */
    method PrintNext(cd: Codec, v: Json) returns (ok: bool)
      requires Valid() && CodecOk(cd)
      modifies this, buffer
      ensures Valid() && (buffer == old(buffer) || (fresh(buffer) && !noalloc)) && (ok ==> depth == old(depth))
      ensures var text := JsonValue.PrintValue(cd, v, format, old(depth));
              && (ok ==> Text() == old(Text()) + text && Enough(offset))
              && (old(Room(offset + |text|)) ==> ok)
      decreases Size(v), 2
    {
      ghost var before, text := Text(), JsonValue.PrintValue(cd, v, format, depth);
      ok := PrintValue(cd, v);
      if ok {
        ValueNoNul(cd, v, format, depth);
        assert (before + text)[offset..] == text[offset - |before|..];
        UpdateOffset(before + text);
      }
    }

    /** print_string_ptr for a key, and update_offset. */
    method PrintKey(key: seq<byte>) returns (ok: bool)
      requires Valid()
      modifies this`buffer, this`offset, buffer
      ensures Valid() && (buffer == old(buffer) || (fresh(buffer) && !noalloc))
      ensures ok ==> Text() == old(Text()) + JsonText.PrintString(key)
      ensures old(Room(offset + |JsonText.PrintString(key)|)) ==> ok
    {
      ghost var before, text := Text(), JsonText.PrintString(key);
      ok := PrintString(key);
      if ok {
        StringNoNul(key);
        assert (before + text)[offset..] == text;
        UpdateOffset(before + text);
      }
    }

    method PrintArray(cd: Codec, items: Items) returns (ok: bool)
      requires Valid() && CodecOk(cd)
      modifies this, buffer
      ensures Valid() && (buffer == old(buffer) || (fresh(buffer) && !noalloc)) && (ok ==> depth == old(depth))
      ensures var text := JsonValue.PrintValue(cd, JArray(items), format, old(depth));
              && (ok ==> old(offset) <= offset && Holds(old(Text()) + text) && Enough(old(offset) + |text|))
              && (old(Room(offset + |text|)) ==> ok)
      decreases 1 + ItemsSize(items), 0
    {
      hide JsonValue.PrintValue, PrintItems, CodecOk;
      ArrayText(cd, items, format, depth, Text());
      ok := Put([OPEN_BRACKET], 1);
      if !ok {
        return;
      }
      depth := depth + 1;
      ok := PrintItemList(cd, items);
      if !ok {
        return;
      }
      ok := PutTerminated([CLOSE_BRACKET], 2);
      depth := depth - 1;
    }

    /** The loop of print_array. */
    method PrintItemList(cd: Codec, items: Items) returns (ok: bool)
      requires Valid() && CodecOk(cd)
      modifies this, buffer
      ensures Valid() && (buffer == old(buffer) || (fresh(buffer) && !noalloc)) && (ok ==> depth == old(depth))
      ensures var text := PrintItems(cd, items, format, old(depth));
              (ok ==> Text() == old(Text()) + text) && (old(Room(offset + |text|)) ==> ok)
      decreases ItemsSize(items), 1
    {
      hide JsonValue.PrintValue, PrintItems, CodecOk;
      ghost var goal := Text() + PrintItems(cd, items, format, depth);
      ghost var room := Room(|goal|);
      var current := items;
      ok := true;
      while current != NoItem
        invariant Valid() && (buffer == old(buffer) || (fresh(buffer) && !noalloc)) && depth == old(depth) && ok
        invariant Text() + PrintItems(cd, current, format, depth) == goal && (room ==> Room(|goal|))
        invariant ItemsSize(current) <= ItemsSize(items)
        decreases ItemsSize(current)
      {
        ItemsPart(cd, current, format, depth, Text(), goal);
        ok := PrintItem(cd, current);
        if !ok {
          return;
        }
        current := current.next;
      }
      NothingMore(cd, format, depth, Text());
    }

    /** One turn of the loop of print_array: the element and what separates it from the next. */
    method PrintItem(cd: Codec, current: Items) returns (ok: bool)
      requires Valid() && CodecOk(cd) && current.Item?
      modifies this, buffer
      ensures Valid() && (buffer == old(buffer) || (fresh(buffer) && !noalloc)) && (ok ==> depth == old(depth))
      ensures var text := JsonValue.PrintValue(cd, current.value, format, old(depth)) + ItemSeparator(current.next, format);
              (ok ==> Text() == old(Text()) + text) && (old(Room(offset + |text|)) ==> ok)
      decreases ItemsSize(current), 0
    {
      ok := PrintNext(cd, current.value);
      if ok && current.next != NoItem {
        var length := if format then 2 else 1;
        ok := PutSeparator([COMMA] + Only(format, [32]), length + 1);
      }
    }

    method PrintObject(cd: Codec, members: Members) returns (ok: bool)
      requires Valid() && CodecOk(cd)
      modifies this, buffer
      ensures Valid() && (buffer == old(buffer) || (fresh(buffer) && !noalloc)) && (ok ==> depth == old(depth))
      ensures var text := JsonValue.PrintValue(cd, JObject(members), format, old(depth));
              && (ok ==> old(offset) <= offset && Holds(old(Text()) + text) && Enough(old(offset) + |text|))
              && (old(Room(offset + |text|)) ==> ok)
      decreases 1 + MembersSize(members), 0
    {
      hide JsonValue.PrintValue, PrintMembers, Only, CodecOk;
      var open := [OPEN_BRACE] + Only(format, [10]);
      ObjectText(cd, members, format, depth, Text());
      OnlySizes(format, depth);
      ok := Put(open, (if format then 2 else 1) + 1);
      if !ok {
        return;
      }
      depth := depth + 1;
      ok := PrintMemberList(cd, members);
      if !ok {
        return;
      }
      ok := PutTerminated(Only(format, Tabs(depth - 1)) + [CLOSE_BRACE], if format then depth + 1 else 2);
      depth := depth - 1;
    }

    /** The loop of print_object. */
    method PrintMemberList(cd: Codec, members: Members) returns (ok: bool)
      requires Valid() && CodecOk(cd)
      modifies this, buffer
      ensures Valid() && (buffer == old(buffer) || (fresh(buffer) && !noalloc)) && (ok ==> depth == old(depth))
      ensures var text := PrintMembers(cd, members, format, old(depth));
              (ok ==> Text() == old(Text()) + text) && (old(Room(offset + |text|)) ==> ok)
      decreases MembersSize(members), 1
    {
      hide JsonValue.PrintValue, PrintMembers, CodecOk;
      ghost var goal := Text() + PrintMembers(cd, members, format, depth);
      ghost var room := Room(|goal|);
      var current := members;
      ok := true;
      while current != NoMember
        invariant Valid() && (buffer == old(buffer) || (fresh(buffer) && !noalloc)) && depth == old(depth) && ok
        invariant Text() + PrintMembers(cd, current, format, depth) == goal && (room ==> Room(|goal|))
        invariant MembersSize(current) <= MembersSize(members)
        decreases MembersSize(current)
      {
        MembersPart(cd, current, format, depth, Text(), goal);
        ok := PrintMember(cd, current);
        if !ok {
          return;
        }
        current := current.next;
      }
      NothingMore(cd, format, depth, Text());
    }

    /** One turn of the loop of print_object. */
    method PrintMember(cd: Codec, current: Members) returns (ok: bool)
      requires Valid() && CodecOk(cd) && current.Member?
      modifies this, buffer
      ensures Valid() && (buffer == old(buffer) || (fresh(buffer) && !noalloc)) && (ok ==> depth == old(depth))
      ensures var text := MemberText(cd, current, format, old(depth));
              (ok ==> Text() == old(Text()) + text) && (old(Room(offset + |text|)) ==> ok)
      decreases MembersSize(current), 0
    {
      hide JsonValue.PrintValue, JsonText.PrintString, Only, MemberSeparator, CodecOk;
      ghost var before, head := Text(), MemberHead(current.key, format, depth);
      ghost var text, sep := JsonValue.PrintValue(cd, current.value, format, depth), MemberSeparator(current.next, format);
      SeparatorSize(current.next, format);
      InFour(before, head, text, sep);
      ok := PrintMemberHead(current.key);
      if !ok {
        return;
      }
      ok := PrintNext(cd, current.value);
      if ok {
        var length := (if format then 1 else 0) + (if current.next != NoMember then 1 else 0);
        ok := PutSeparator(MemberSeparator(current.next, format), length + 1);
      }
    }

    /** Indentation, key and colon. */
    method PrintMemberHead(key: seq<byte>) returns (ok: bool)
      requires Valid()
      modifies this`buffer, this`offset, buffer
      ensures Valid() && (buffer == old(buffer) || (fresh(buffer) && !noalloc))
      ensures var text := MemberHead(key, format, depth);
              (ok ==> Text() == old(Text()) + text) && (old(Room(offset + |text|)) ==> ok)
    {
      hide JsonText.PrintString, Only;
      ghost var before := Text();
      ghost var tabs, colon := Only(format, Tabs(depth)), [COLON] + Only(format, [9]);
      OnlySizes(format, depth);
      InFour(before, tabs, JsonText.PrintString(key), colon);
      if format {
        ok := Put(Tabs(depth), depth);
        if !ok {
          return;
        }
      }
      assert Text() == before + tabs;
      ok := PrintKey(key);
      if ok {
        ok := Put([COLON] + Only(format, [9]), if format then 2 else 1);
      }
    }
  }

  lemma InFour(a: seq<byte>, b: seq<byte>, c: seq<byte>, d: seq<byte>)
    ensures a + b + c + d == a + (b + c + d)
  {
  }

  lemma OnlySizes(fmt: bool, depth: nat)
    ensures |Only(fmt, [10])| == |Only(fmt, [9])| == (if fmt then 1 else 0)
    ensures |Only(fmt, Tabs(depth))| == (if fmt then depth else 0)
    ensures Only(fmt, Tabs(depth)) == if fmt then Tabs(depth) else []
  {
  }

  lemma SeparatorSize(next: Members, fmt: bool)
    ensures |MemberSeparator(next, fmt)| == (if fmt then 1 else 0) + (if next != NoMember then 1 else 0)
  {
  }

  /** cJSON_PrintPreallocated and print: the text of the value, whole, or nothing. */
  method Print(cd: Codec, v: Json, length: nat, noalloc: bool, format: bool) returns (ok: bool, text: seq<byte>)
    requires CodecOk(cd)
    ensures ok ==> text == JsonValue.PrintValue(cd, v, format, 0)
    ensures var size := |JsonValue.PrintValue(cd, v, format, 0)|;
            size + 2 <= INT_MAX ==> (ok <==> !noalloc || size + 2 <= length)
  {
    var p := new PrintBuffer(length, noalloc, format);
    ok := p.PrintNext(cd, v);
    text := if ok then p.buffer[..p.offset] else [];
  }
}
