/**
  JSON values: the parser and the two printers of cm/src/cJSON.c:963-1072, 1212-1717 as functions of
  the text.  The text of numbers is left to a codec (strtod and sprintf in the source).  Section 2 of RFC 8259.
 */
module JsonValue {
  import opened Bytes
  import opened JsonText

  const CJSON_NESTING_LIMIT: nat := 1000
  const MAX_NUMBER_TEXT: nat := 63

  const COMMA: byte := 44
  const COLON: byte := 58
  const OPEN_BRACKET: byte := 91
  const CLOSE_BRACKET: byte := 93
  const OPEN_BRACE: byte := 123
  const CLOSE_BRACE: byte := 125
  const NULL_TEXT: seq<byte> := [110, 117, 108, 108]
  const FALSE_TEXT: seq<byte> := [102, 97, 108, 115, 101]
  const TRUE_TEXT: seq<byte> := [116, 114, 117, 101]

  /** A double, as the number its 64 bits make. */
  type Number = n: nat | n < 0x1_0000_0000_0000_0000

  datatype Json =
    | JNull | JFalse | JTrue
    | JNumber(number: Number)
    | JString(str: seq<byte>)
    | JArray(items: Items)
    | JObject(members: Members)

  /** Children are linked by `next`, as in the source. */
  datatype Items = NoItem | Item(value: Json, next: Items)

  datatype Members = NoMember | Member(key: seq<byte>, value: Json, next: Members)

  // ----- Numbers -----

  /** Neither an infinity nor a NaN: the 11 bits of the exponent are not all ones. */
  predicate IsFinite(n: Number) {
    n / 0x10_0000_0000_0000 % 2048 != 2047
  }

  /** `show` is sprintf; `read` is strtod on a token, with the count of bytes it took. */
  datatype Codec = Codec(show: Number -> seq<byte>, read: seq<byte> -> Option<Read<Number>>)

  predicate IsDigit(b: byte) {
    48 <= b <= 57
  }

  /** Bytes parse_number copies: digits and + - . e E. */
  predicate NumberByte(b: byte) {
    IsDigit(b) || b == 43 || b == 45 || b == 46 || b == 101 || b == 69
  }

  function NumberToken(c: seq<byte>, i: nat, room: nat): (r: seq<byte>)
    ensures |r| <= room && i + |r| <= if i <= |c| then |c| else i
    decreases room
  {
    if room == 0 || i >= |c| || !NumberByte(c[i]) then [] else [c[i]] + NumberToken(c, i + 1, room - 1)
  }

  /** Finite numbers are shown as tokens of at most 25 bytes that begin like a number and read back. */
  ghost predicate CodecOk(cd: Codec) {
    forall n: Number :: IsFinite(n) ==>
      && 1 <= |cd.show(n)| <= 25
      && (cd.show(n)[0] == 45 || IsDigit(cd.show(n)[0]))
      && (forall i :: 0 <= i < |cd.show(n)| ==> NumberByte(cd.show(n)[i]))
      && cd.read(cd.show(n)) == Some(Read(n, |cd.show(n)|))
  }

  function ParseNumber(cd: Codec, c: seq<byte>, i: nat): (r: Option<Read<Json>>)
    ensures r.Some? ==> i < r.value.next <= |c|
  {
    var token := NumberToken(c, i, MAX_NUMBER_TEXT);
    match cd.read(token)
    case None => None
    case Some(Read(n, used)) => if 1 <= used <= |token| then Some(Read(JNumber(n), i + used)) else None
  }

  // ----- The parser -----

  /** The text with its terminator. */
  predicate Terminated(c: seq<byte>) {
    c != [] && c[|c| - 1] == 0
  }

  /** buffer_skip_whitespace: past bytes up to 32, but never past the last one. */
  function Skip(c: seq<byte>, i: nat): (j: nat)
    requires i < |c|
    ensures i <= j < |c| && (c[j] > 32 || j == |c| - 1)
    decreases |c| - i
  {
    if c[i] > 32 || i + 1 == |c| then i else Skip(c, i + 1)
  }

  predicate StartsAt(c: seq<byte>, i: nat, text: seq<byte>) {
    i + |text| <= |c| && c[i..i + |text|] == text
  }

  /** A string, not running into the terminator. */
  function ParseText(c: seq<byte>, i: nat): (r: Option<Read<seq<byte>>>)
    requires Terminated(c)
    ensures r.Some? ==> i < r.value.next < |c|
  {
    match ParseString(c, i)
    case None => None
    case Some(r) => NextInside(c, i); Some(r)
  }

  lemma NextInside(c: seq<byte>, i: nat)
    requires Terminated(c) && ParseString(c, i).Some?
    ensures ParseString(c, i).value.next < |c|
  {
  }

  lemma TokenInside(c: seq<byte>, i: nat, room: nat)
    requires Terminated(c) && i < |c|
    ensures i + |NumberToken(c, i, room)| < |c|
    decreases room
  {
    if room > 0 && i + 1 < |c| { TokenInside(c, i + 1, room - 1); }
  }

  /** parse_value */
  function ParseValue(cd: Codec, c: seq<byte>, i: nat, depth: nat): (r: Option<Read<Json>>)
    requires Terminated(c) && i < |c|
    ensures r.Some? ==> i < r.value.next < |c|
    decreases |c| - i, 0
  {
    if StartsAt(c, i, NULL_TEXT) then Some(Read(JNull, i + 4))
    else if StartsAt(c, i, FALSE_TEXT) then Some(Read(JFalse, i + 5))
    else if StartsAt(c, i, TRUE_TEXT) then Some(Read(JTrue, i + 4))
    else if c[i] == QUOTE then
      match ParseText(c, i)
      case None => None
      case Some(r) => Some(Read(JString(r.value), r.next))
    else if c[i] == 45 || IsDigit(c[i]) then
      TokenInside(c, i, MAX_NUMBER_TEXT);
      ParseNumber(cd, c, i)
    else if c[i] == OPEN_BRACKET then
      if depth >= CJSON_NESTING_LIMIT then None
      else
        var j := Skip(c, i + 1);
        if c[j] == CLOSE_BRACKET then Some(Read(JArray(NoItem), j + 1))
        else match ParseItems(cd, c, j, depth + 1)
             case None => None
             case Some(r) => Some(Read(JArray(r.value), r.next))
    else if c[i] == OPEN_BRACE then
      if depth >= CJSON_NESTING_LIMIT then None
      else
        var j := Skip(c, i + 1);
        if c[j] == CLOSE_BRACE then Some(Read(JObject(NoMember), j + 1))
        else match ParseMembers(cd, c, j, depth + 1)
             case None => None
             case Some(r) => Some(Read(JObject(r.value), r.next))
    else None
  }

  /** The loop of parse_array. */
  function ParseItems(cd: Codec, c: seq<byte>, i: nat, depth: nat): (r: Option<Read<Items>>)
    requires Terminated(c) && i < |c|
    ensures r.Some? ==> i < r.value.next < |c|
    decreases |c| - i, 1
  {
    match ParseValue(cd, c, Skip(c, i), depth)
    case None => None
    case Some(v) =>
      var j := Skip(c, v.next);
      if c[j] == COMMA then
        match ParseItems(cd, c, j + 1, depth)
        case None => None
        case Some(r) => Some(Read(Item(v.value, r.value), r.next))
      else if c[j] == CLOSE_BRACKET then Some(Read(Item(v.value, NoItem), j + 1))
      else None
  }

  /** The loop of parse_object. */
  function ParseMembers(cd: Codec, c: seq<byte>, i: nat, depth: nat): (r: Option<Read<Members>>)
    requires Terminated(c) && i < |c|
    ensures r.Some? ==> i < r.value.next < |c|
    decreases |c| - i, 1
  {
    match ParseText(c, Skip(c, i))
    case None => None
    case Some(k) =>
      var m := Skip(c, k.next);
      if c[m] != COLON then None
      else
        match ParseValue(cd, c, Skip(c, m + 1), depth)
        case None => None
        case Some(v) =>
          var j := Skip(c, v.next);
          if c[j] == COMMA then
            match ParseMembers(cd, c, j + 1, depth)
            case None => None
            case Some(r) => Some(Read(Member(k.value, v.value, r.value), r.next))
          else if c[j] == CLOSE_BRACE then Some(Read(Member(k.value, v.value, NoMember), j + 1))
          else None
  }

  /** skip_utf8_bom at the start of a text. */
  function SkipBom(c: seq<byte>): nat {
    if |c| > 4 && c[..3] == [239, 187, 191] then 3 else 0
  }

  /** cJSON_ParseWithOpts on a text without its terminator; `whole` demands that nothing follows. */
  function Parse(cd: Codec, text: seq<byte>, whole: bool): Option<Json> {
    var c := text + [0];
    match ParseValue(cd, c, Skip(c, SkipBom(c)), 0)
    case None => None
    case Some(r) => if whole && c[Skip(c, r.next)] != 0 then None else Some(r.value)
  }

  // ----- The printers -----

  function Tabs(n: nat): (r: seq<byte>)
    ensures |r| == n && forall i :: 0 <= i < n ==> r[i] == 9
  {
    seq(n, _ => 9)
  }

  /** Text that only the formatted print has. */
  function Only(fmt: bool, text: seq<byte>): seq<byte> {
    if fmt then text else []
  }

  /** print_value; objects indent by their depth. */
  function PrintValue(cd: Codec, v: Json, fmt: bool, depth: nat): seq<byte> {
    match v
    case JNull => NULL_TEXT
    case JFalse => FALSE_TEXT
    case JTrue => TRUE_TEXT
    case JNumber(n) => if IsFinite(n) then cd.show(n) else NULL_TEXT
    case JString(s) => PrintString(s)
    case JArray(items) => [OPEN_BRACKET] + PrintItems(cd, items, fmt, depth + 1) + [CLOSE_BRACKET]
    case JObject(members) =>
      [OPEN_BRACE] + Only(fmt, [10]) + PrintMembers(cd, members, fmt, depth + 1) + Only(fmt, Tabs(depth)) + [CLOSE_BRACE]
  }

  function PrintItems(cd: Codec, items: Items, fmt: bool, depth: nat): seq<byte> {
    match items
    case NoItem => []
    case Item(v, next) =>
      PrintValue(cd, v, fmt, depth) + ItemSeparator(next, fmt) + PrintItems(cd, next, fmt, depth)
  }

  function ItemSeparator(next: Items, fmt: bool): seq<byte> {
    if next == NoItem then [] else [COMMA] + Only(fmt, [32])
  }

  function PrintMembers(cd: Codec, members: Members, fmt: bool, depth: nat): seq<byte> {
    match members
    case NoMember => []
    case Member(key, v, next) =>
      Only(fmt, Tabs(depth)) + PrintString(key) + ([COLON] + Only(fmt, [9])) + PrintValue(cd, v, fmt, depth)
      + MemberSeparator(next, fmt) + PrintMembers(cd, next, fmt, depth)
  }

  function MemberSeparator(next: Members, fmt: bool): seq<byte> {
    (if next == NoMember then [] else [COMMA]) + Only(fmt, [10])
  }

  /** The value a print stands for: infinities and NaNs are printed as null. */
  function Printable(v: Json): Json {
    match v
    case JNumber(n) => if IsFinite(n) then v else JNull
    case JArray(items) => JArray(PrintableItems(items))
    case JObject(members) => JObject(PrintableMembers(members))
    case _ => v
  }

  function PrintableItems(items: Items): Items {
    match items
    case NoItem => NoItem
    case Item(v, next) => Item(Printable(v), PrintableItems(next))
  }

  function PrintableMembers(members: Members): Members {
    match members
    case NoMember => NoMember
    case Member(key, v, next) => Member(key, Printable(v), PrintableMembers(next))
  }

  /** How deeply arrays and objects are nested. */
  function Height(v: Json): nat {
    match v
    case JArray(items) => 1 + ItemsHeight(items)
    case JObject(members) => 1 + MembersHeight(members)
    case _ => 0
  }

  function ItemsHeight(items: Items): nat {
    match items
    case NoItem => 0
    case Item(v, next) => if Height(v) >= ItemsHeight(next) then Height(v) else ItemsHeight(next)
  }

  function MembersHeight(members: Members): nat {
    match members
    case NoMember => 0
    case Member(_, v, next) => if Height(v) >= MembersHeight(next) then Height(v) else MembersHeight(next)
  }
}
