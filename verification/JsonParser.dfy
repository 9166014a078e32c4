/**
  The parser of cm/src/cJSON.c:243-327, 963-981, 1001-1072, 1212-1562 on its buffer: the position and
  the nesting depth are updated in place, and children are collected in loops.
 */
module JsonParser {
  import opened Bytes
  import opened JsonText
  import opened JsonString
  import opened JsonValue

  // ----- Lists built up in a loop -----

  function FromSeq(s: seq<Json>, tail: Items): Items
    decreases |s|
  {
    if s == [] then tail else Item(s[0], FromSeq(s[1..], tail))
  }

  lemma {:induction false} FromSeqSnoc(s: seq<Json>, v: Json, tail: Items)
    ensures FromSeq(s + [v], tail) == FromSeq(s, Item(v, tail))
    decreases |s|
  {
    if s == [] {
      assert (s + [v])[1..] == [];
    } else {
      assert (s + [v])[1..] == s[1..] + [v];
      FromSeqSnoc(s[1..], v, tail);
    }
  }

  datatype Pair = Pair(key: seq<byte>, value: Json)

  function FromPairs(s: seq<Pair>, tail: Members): Members
    decreases |s|
  {
    if s == [] then tail else Member(s[0].key, s[0].value, FromPairs(s[1..], tail))
  }

  lemma {:induction false} FromPairsSnoc(s: seq<Pair>, p: Pair, tail: Members)
    ensures FromPairs(s + [p], tail) == FromPairs(s, Member(p.key, p.value, tail))
    decreases |s|
  {
    if s == [] {
      assert (s + [p])[1..] == [];
    } else {
      assert (s + [p])[1..] == s[1..] + [p];
      FromPairsSnoc(s[1..], p, tail);
    }
  }

  /** `done` has been read; what is left decides the `total`. */
  ghost predicate ItemsSoFar(done: seq<Json>, rest: Option<Read<Items>>, total: Option<Read<Items>>) {
    total == match rest
             case None => None
             case Some(r) => Some(Read(FromSeq(done, r.value), r.next))
  }

  ghost predicate MembersSoFar(done: seq<Pair>, rest: Option<Read<Members>>, total: Option<Read<Members>>) {
    total == match rest
             case None => None
             case Some(r) => Some(Read(FromPairs(done, r.value), r.next))
  }

  lemma MoreItems(done: seq<Json>, v: Json, rest: Option<Read<Items>>, total: Option<Read<Items>>)
    requires ItemsSoFar(done, match rest
                              case None => None
                              case Some(r) => Some(Read(Item(v, r.value), r.next)), total)
    ensures ItemsSoFar(done + [v], rest, total)
  {
    if rest.Some? { FromSeqSnoc(done, v, rest.value.value); }
  }

  lemma MoreMembers(done: seq<Pair>, p: Pair, rest: Option<Read<Members>>, total: Option<Read<Members>>)
    requires MembersSoFar(done, match rest
                                case None => None
                                case Some(r) => Some(Read(Member(p.key, p.value, r.value), r.next)), total)
    ensures MembersSoFar(done + [p], rest, total)
  {
    if rest.Some? { FromPairsSnoc(done, p, rest.value.value); }
  }

  class ParseBuffer {
    const content: seq<byte>
    var offset: nat
    var depth: nat

    constructor (text: seq<byte>)
      ensures content == text + [0] && offset == 0 && depth == 0
    {
      content, offset, depth := text + [0], 0, 0;
    }

    ghost predicate Valid()
      reads this
    {
      Terminated(content) && offset < |content|
    }

    /** The buffer has moved to where `r` says; after a failure its position is not used. */
    ghost predicate At<T>(r: Option<Read<T>>, got: Option<T>, depthBefore: nat)
      reads this
    {
      match r
      case None => got == None
      case Some(read) => got == Some(read.value) && offset == read.next && depth == depthBefore
    }

    /** buffer_skip_whitespace */
    method SkipWhitespace()
      requires offset < |content|
      modifies this`offset
      ensures offset == Skip(content, old(offset))
    {
      while offset < |content| && content[offset] <= 32
        invariant old(offset) <= offset <= |content|
        invariant offset < |content| ==> Skip(content, offset) == Skip(content, old(offset))
        invariant offset == |content| ==> Skip(content, old(offset)) == |content| - 1
      {
        offset := offset + 1;
      }
      if offset == |content| {
        offset := offset - 1;
      }
    }

    /** The copying loop of parse_number. */
    method CopyNumber() returns (token: seq<byte>)
      requires Valid()
      ensures token == NumberToken(content, offset, MAX_NUMBER_TEXT)
    {
      token := [];
      var i := 0;
      while i < MAX_NUMBER_TEXT && offset + i < |content| && NumberByte(content[offset + i])
        invariant i <= MAX_NUMBER_TEXT && offset + i <= |content|
        invariant NumberToken(content, offset, MAX_NUMBER_TEXT) == token + NumberToken(content, offset + i, MAX_NUMBER_TEXT - i)
      {
        token := token + [content[offset + i]];
        i := i + 1;
      }
    }

    method ParseNumber(cd: Codec) returns (r: Option<Json>)
      requires Valid()
      modifies this`offset
      ensures At(JsonValue.ParseNumber(cd, content, old(offset)), r, depth)
    {
      var token := CopyNumber();
      match cd.read(token)
      case None => r := None;
      case Some(Read(n, used)) =>
        if used == 0 || used > |token| {
          return None;
        }
        offset := offset + used;
        r := Some(JNumber(n));
    }

    method ParseString() returns (r: Option<seq<byte>>)
      requires Valid()
      modifies this`offset
      ensures At(ParseText(content, old(offset)), r, depth)
    {
      var read := ReadString(content, offset);
      match read
      case None => r := None;
      case Some(Read(s, next)) =>
        offset := next;
        r := Some(s);
    }

    method StartsWith(text: seq<byte>) returns (b: bool)
      ensures b == StartsAt(content, offset, text)
    {
      b := offset + |text| <= |content| && content[offset..offset + |text|] == text;
    }

    method ParseValue(cd: Codec) returns (r: Option<Json>)
      requires Valid()
      modifies this
      ensures At(JsonValue.ParseValue(cd, content, old(offset), old(depth)), r, old(depth))
      decreases |content| - offset, 1
    {
      var isNull := StartsWith(NULL_TEXT);
      if isNull {
        offset := offset + 4;
        return Some(JNull);
      }
      var isFalse := StartsWith(FALSE_TEXT);
      if isFalse {
        offset := offset + 5;
        return Some(JFalse);
      }
      var isTrue := StartsWith(TRUE_TEXT);
      if isTrue {
        offset := offset + 4;
        return Some(JTrue);
      }
      if content[offset] == QUOTE {
        var s := ParseString();
        r := if s == None then None else Some(JString(s.value));
      } else if content[offset] == 45 || IsDigit(content[offset]) {
        r := ParseNumber(cd);
      } else if content[offset] == OPEN_BRACKET {
        r := ParseArray(cd);
      } else if content[offset] == OPEN_BRACE {
        r := ParseObject(cd);
      } else {
        r := None;
      }
    }

    /** One turn of the loop of parse_array, up to what follows the value. */
    method NextItem(cd: Codec) returns (v: Option<Json>)
      requires Terminated(content) && offset + 1 < |content|
      modifies this
      ensures v == None ==> ParseItems(cd, content, old(offset) + 1, old(depth)) == None
      ensures v != None ==>
                && old(offset) < offset < |content| && depth == old(depth)
                && ParseItems(cd, content, old(offset) + 1, depth) ==
                   if content[offset] == COMMA then
                     match ParseItems(cd, content, offset + 1, depth)
                     case None => None
                     case Some(r) => Some(Read(Item(v.value, r.value), r.next))
                   else if content[offset] == CLOSE_BRACKET then Some(Read(Item(v.value, NoItem), offset + 1))
                   else None
      decreases |content| - (offset + 1), 2
    {
      hide JsonValue.ParseValue;
      offset := offset + 1;
      SkipWhitespace();
      v := ParseValue(cd);
      if v != None {
        SkipWhitespace();
      }
    }

    /** One turn of the loop of parse_object. */
    method NextMember(cd: Codec) returns (p: Option<Pair>)
      requires Terminated(content) && offset + 1 < |content|
      modifies this
      ensures p == None ==> ParseMembers(cd, content, old(offset) + 1, old(depth)) == None
      ensures p != None ==>
                && old(offset) < offset < |content| && depth == old(depth)
                && ParseMembers(cd, content, old(offset) + 1, depth) ==
                   if content[offset] == COMMA then
                     match ParseMembers(cd, content, offset + 1, depth)
                     case None => None
                     case Some(r) => Some(Read(Member(p.value.key, p.value.value, r.value), r.next))
                   else if content[offset] == CLOSE_BRACE then Some(Read(Member(p.value.key, p.value.value, NoMember), offset + 1))
                   else None
      decreases |content| - (offset + 1), 2
    {
      hide JsonValue.ParseValue, ParseText, Skip;
      offset := offset + 1;
      SkipWhitespace();
      var key := ParseString();
      if key == None {
        return None;
      }
      SkipWhitespace();
      if content[offset] != COLON {
        return None;
      }
      offset := offset + 1;
      SkipWhitespace();
      var v := ParseValue(cd);
      if v == None {
        return None;
      }
      SkipWhitespace();
      p := Some(Pair(key.value, v.value));
    }

    method ParseArray(cd: Codec) returns (r: Option<Json>)
      requires Valid() && content[offset] == OPEN_BRACKET
      modifies this
      ensures depth == old(depth) || r == None
      ensures old(depth) >= CJSON_NESTING_LIMIT ==> r == None
      ensures old(depth) < CJSON_NESTING_LIMIT ==>
                var j := Skip(content, old(offset) + 1);
                if content[j] == CLOSE_BRACKET then r == Some(JArray(NoItem)) && offset == j + 1
                else match ParseItems(cd, content, j, old(depth) + 1)
                     case None => r == None
                     case Some(read) => r == Some(JArray(read.value)) && offset == read.next
      decreases |content| - offset, 0
    {
      hide JsonValue.ParseValue, ParseItems, ParseMembers;
      if depth >= CJSON_NESTING_LIMIT {
        return None;
      }
      depth := depth + 1;
      offset := offset + 1;
      SkipWhitespace();
      if content[offset] == CLOSE_BRACKET {
        depth := depth - 1;
        offset := offset + 1;
        return Some(JArray(NoItem));
      }
      ghost var total := ParseItems(cd, content, offset, depth);
      offset := offset - 1;
      var items: seq<Json> := [];
      var more := true;
      while more
        invariant Terminated(content) && old(offset) <= offset && offset + (if more then 1 else 0) < |content|
        invariant depth == old(depth) + 1
        invariant more ==> ItemsSoFar(items, ParseItems(cd, content, offset + 1, depth), total)
        invariant !more ==> total == if content[offset] == CLOSE_BRACKET then Some(Read(FromSeq(items, NoItem), offset + 1)) else None
        decreases more, |content| - offset
      {
        var v := NextItem(cd);
        if v == None {
          return None;
        }
        more := content[offset] == COMMA;
        if more {
          MoreItems(items, v.value, ParseItems(cd, content, offset + 1, depth), total);
        } else {
          FromSeqSnoc(items, v.value, NoItem);
        }
        items := items + [v.value];
      }
      if content[offset] != CLOSE_BRACKET {
        return None;
      }
      depth := depth - 1;
      offset := offset + 1;
      r := Some(JArray(FromSeq(items, NoItem)));
    }

    method ParseObject(cd: Codec) returns (r: Option<Json>)
      requires Valid() && content[offset] == OPEN_BRACE
      modifies this
      ensures depth == old(depth) || r == None
      ensures old(depth) >= CJSON_NESTING_LIMIT ==> r == None
      ensures old(depth) < CJSON_NESTING_LIMIT ==>
                var j := Skip(content, old(offset) + 1);
                if content[j] == CLOSE_BRACE then r == Some(JObject(NoMember)) && offset == j + 1
                else match ParseMembers(cd, content, j, old(depth) + 1)
                     case None => r == None
                     case Some(read) => r == Some(JObject(read.value)) && offset == read.next
      decreases |content| - offset, 0
    {
      hide JsonValue.ParseValue, ParseItems, ParseMembers;
      if depth >= CJSON_NESTING_LIMIT {
        return None;
      }
      depth := depth + 1;
      offset := offset + 1;
      SkipWhitespace();
      if content[offset] == CLOSE_BRACE {
        depth := depth - 1;
        offset := offset + 1;
        return Some(JObject(NoMember));
      }
      ghost var total := ParseMembers(cd, content, offset, depth);
      offset := offset - 1;
      var members: seq<Pair> := [];
      var more := true;
      while more
        invariant Terminated(content) && old(offset) <= offset && offset + (if more then 1 else 0) < |content|
        invariant depth == old(depth) + 1
        invariant more ==> MembersSoFar(members, ParseMembers(cd, content, offset + 1, depth), total)
        invariant !more ==> total == if content[offset] == CLOSE_BRACE then Some(Read(FromPairs(members, NoMember), offset + 1)) else None
        decreases more, |content| - offset
      {
        var p := NextMember(cd);
        if p == None {
          return None;
        }
        more := content[offset] == COMMA;
        if more {
          MoreMembers(members, p.value, ParseMembers(cd, content, offset + 1, depth), total);
        } else {
          FromPairsSnoc(members, p.value, NoMember);
        }
        members := members + [p.value];
      }
      if content[offset] != CLOSE_BRACE {
        return None;
      }
      depth := depth - 1;
      offset := offset + 1;
      r := Some(JObject(FromPairs(members, NoMember)));
    }
  }

  /** cJSON_ParseWithOpts */
  method ParseWithOpts(cd: Codec, text: seq<byte>, whole: bool) returns (r: Option<Json>)
    ensures r == Parse(cd, text, whole)
  {
    var buffer := new ParseBuffer(text);
    if |buffer.content| > 4 && buffer.content[..3] == [239, 187, 191] {
      buffer.offset := 3;
    }
    buffer.SkipWhitespace();
    r := buffer.ParseValue(cd);
    if r != None && whole {
      buffer.SkipWhitespace();
      if buffer.content[buffer.offset] != 0 {
        r := None;
      }
    }
  }
}
