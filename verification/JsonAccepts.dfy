/**
  The parser accepts exactly the texts of the grammar, and reads what they mean
  (cm/src/cJSON.c:963-1072, 1212-1603).
 */
module JsonAccepts {
  import opened Bytes
  import opened JsonText
  import opened JsonValue
  import opened JsonGrammar
  import JsonStrings

  // ----- White space -----

  lemma {:induction false} SkipOver(c: seq<byte>, i: nat, n: nat)
    requires i + n < |c| && c[i + n] > 32 && forall j :: i <= j < i + n ==> c[j] <= 32
    ensures Skip(c, i) == i + n
    decreases n
  {
    if n > 0 { SkipOver(c, i + 1, n - 1); }
  }

  /** White space in front of a byte that is none. */
  lemma SkipWhite(c: seq<byte>, i: nat, white: seq<byte>)
    requires Stands(c, i, white) && White(white)
    requires i + |white| < |c| && c[i + |white|] > 32
    ensures Skip(c, i) == i + |white|
  {
    forall j | i <= j < i + |white|
      ensures c[j] <= 32
    {
      AtPart(c, i, white, j - i);
    }
    SkipOver(c, i, |white|);
  }

  /** Behind a value come white space and a byte that is none; a number cannot go on there. */
  lemma AfterValue(c: seq<byte>, i: nat, white: seq<byte>)
    requires Stands(c, i, white) && White(white) && i + |white| < |c| && c[i + |white|] in {44, 58, 93, 125}
    ensures Skip(c, i) == i + |white| && Ends(c, i)
  {
    SkipWhite(c, i, white);
    if white != [] { AtPart(c, i, white, 0); }
  }

  lemma {:induction false} Skipped(c: seq<byte>, i: nat)
    requires i < |c|
    ensures White(c[i..Skip(c, i)]) && Stands(c, i, c[i..Skip(c, i)]) && Skip(c, Skip(c, i)) == Skip(c, i)
    ensures i < Skip(c, i) ==> c[i] <= 32
    decreases |c| - i
  {
    if Skip(c, i) > i {
      Skipped(c, i + 1);
      assert c[i..Skip(c, i)] == [c[i]] + c[i + 1..Skip(c, i + 1)];
    }
  }

  // ----- Numbers and literals -----

  lemma {:induction false} TokenIs(c: seq<byte>, p: nat, text: seq<byte>, room: nat)
    requires Stands(c, p, text) && (forall i :: 0 <= i < |text| ==> NumberByte(text[i])) && |text| <= room
    requires p + |text| < |c| && !NumberByte(c[p + |text|])
    ensures NumberToken(c, p, room) == text
    decreases |text|
  {
    if text != [] {
      assert text == [text[0]] + text[1..];
      StandsSplit(c, p, [text[0]], text[1..]);
      AtPart(c, p, text, 0);
      TokenIs(c, p + 1, text[1..], room - 1);
    }
  }

  /** The byte behind a value cannot belong to a number. */
  predicate Ends(c: seq<byte>, end: nat) {
    end < |c| && !NumberByte(c[end])
  }

  lemma NotThatLiteral(c: seq<byte>, p: nat, text: seq<byte>)
    requires text != [] && p < |c| && c[p] != text[0]
    ensures !StartsAt(c, p, text)
  {
    assert p + |text| <= |c| ==> c[p..p + |text|][0] == c[p];
  }

  lemma NoLiteral(c: seq<byte>, p: nat)
    requires p < |c| && c[p] !in {110, 102, 116}
    ensures !StartsAt(c, p, NULL_TEXT) && !StartsAt(c, p, FALSE_TEXT) && !StartsAt(c, p, TRUE_TEXT)
  {
    NotThatLiteral(c, p, NULL_TEXT);
    NotThatLiteral(c, p, FALSE_TEXT);
    NotThatLiteral(c, p, TRUE_TEXT);
  }

  // ----- The parser, one step at a time -----

  lemma ItemsSkip(cd: Codec, c: seq<byte>, i: nat, pd: nat)
    requires Terminated(c) && i < |c|
    ensures ParseItems(cd, c, Skip(c, i), pd) == ParseItems(cd, c, i, pd)
  {
    hide ParseValue, Skip, White, Stands;
    Skipped(c, i);
    ItemsIs(cd, c, i, pd);
    ItemsIs(cd, c, Skip(c, i), pd);
    hide ParseItems;
  }

  lemma MembersSkip(cd: Codec, c: seq<byte>, i: nat, pd: nat)
    requires Terminated(c) && i < |c|
    ensures ParseMembers(cd, c, Skip(c, i), pd) == ParseMembers(cd, c, i, pd)
  {
    hide ParseValue, ParseText, Skip, White, Stands;
    Skipped(c, i);
    MembersIs(cd, c, i, pd);
    MembersIs(cd, c, Skip(c, i), pd);
    hide ParseMembers;
  }

  lemma ArrayIs(cd: Codec, c: seq<byte>, p: nat, pd: nat)
    requires Terminated(c) && p + 1 < |c| && c[p] == 91
    ensures ParseValue(cd, c, p, pd) ==
              if pd >= 1000 then None
              else if c[Skip(c, p + 1)] == 93 then Some(Read(JArray(NoItem), Skip(c, p + 1) + 1))
              else match ParseItems(cd, c, p + 1, pd + 1)
                   case None => None
                   case Some(r) => Some(Read(JArray(r.value), r.next))
  {
    NoLiteral(c, p);
    ItemsSkip(cd, c, p + 1, pd + 1);
    hide ParseItems, ParseMembers, ParseText, ParseNumber, Skip, StartsAt;
  }

  lemma ObjectIs(cd: Codec, c: seq<byte>, p: nat, pd: nat)
    requires Terminated(c) && p + 1 < |c| && c[p] == 123
    ensures ParseValue(cd, c, p, pd) ==
              if pd >= 1000 then None
              else if c[Skip(c, p + 1)] == 125 then Some(Read(JObject(NoMember), Skip(c, p + 1) + 1))
              else match ParseMembers(cd, c, p + 1, pd + 1)
                   case None => None
                   case Some(r) => Some(Read(JObject(r.value), r.next))
  {
    NoLiteral(c, p);
    MembersSkip(cd, c, p + 1, pd + 1);
    hide ParseItems, ParseMembers, ParseText, ParseNumber, Skip, StartsAt;
  }

  lemma ItemsIs(cd: Codec, c: seq<byte>, i: nat, pd: nat)
    requires Terminated(c) && i < |c|
    ensures ParseItems(cd, c, i, pd) ==
              match ParseValue(cd, c, Skip(c, i), pd)
              case None => None
              case Some(v) =>
                var j := Skip(c, v.next);
                if c[j] == 44 && j + 1 < |c| then
                  match ParseItems(cd, c, j + 1, pd)
                  case None => None
                  case Some(r) => Some(Read(Item(v.value, r.value), r.next))
                else if c[j] == 93 then Some(Read(Item(v.value, NoItem), j + 1)) else None
  {
    hide ParseValue, Skip;
  }

  lemma MembersIs(cd: Codec, c: seq<byte>, i: nat, pd: nat)
    requires Terminated(c) && i < |c|
    ensures ParseMembers(cd, c, i, pd) ==
              match ParseText(c, Skip(c, i))
              case None => None
              case Some(k) =>
                var m := Skip(c, k.next);
                if c[m] != 58 || m + 1 >= |c| then None
                else
                  match ParseValue(cd, c, Skip(c, m + 1), pd)
                  case None => None
                  case Some(v) =>
                    var j := Skip(c, v.next);
                    if c[j] == 44 && j + 1 < |c| then
                      match ParseMembers(cd, c, j + 1, pd)
                      case None => None
                      case Some(r) => Some(Read(Member(k.value, v.value, r.value), r.next))
                    else if c[j] == 125 then Some(Read(Member(k.value, v.value, NoMember), j + 1)) else None
  {
    hide ParseValue, Skip, ParseText;
  }

  lemma TextIs(c: seq<byte>, p: nat)
    requires Terminated(c)
    ensures ParseText(c, p) == ParseString(c, p)
  {
    hide ParseString;
  }

  lemma QuoteIs(cd: Codec, c: seq<byte>, p: nat, pd: nat)
    requires Terminated(c) && p < |c| && c[p] == 34
    ensures ParseValue(cd, c, p, pd) ==
              match ParseString(c, p)
              case None => None
              case Some(r) => Some(Read(JString(r.value), r.next))
  {
    NoLiteral(c, p);
    TextIs(c, p);
    hide ParseString, StartsAt, ParseText;
  }

  lemma NumberIs(cd: Codec, c: seq<byte>, p: nat, pd: nat)
    requires Terminated(c) && p < |c| && (c[p] == 45 || 48 <= c[p] <= 57)
    ensures ParseValue(cd, c, p, pd) == ParseNumber(cd, c, p)
  {
    NoLiteral(c, p);
    hide ParseNumber, StartsAt;
  }

  // ----- What is spelled is read -----

  /** What comes of a value of that height at depth `pd`: nothing, when it goes deeper than 1000. */
  function Within<T>(height: nat, pd: nat, r: Read<T>): Option<Read<T>> {
    if height + pd <= 1000 then Some(r) else None
  }

  lemma FirstOctet(cd: Codec, s: Syntax)
    requires WellFormed(cd, s)
    ensures Text(s) != [] && Text(s)[0] > 32 && Text(s)[0] !in {93, 125, 239}
  {
  }

  lemma LiteralReads(cd: Codec, c: seq<byte>, p: nat, s: Syntax, pd: nat)
    requires Terminated(c) && (s.Null? || s.False? || s.True?) && Stands(c, p, Text(s)) && p < |c|
    ensures ParseValue(cd, c, p, pd) == Some(Read(Value(cd, s), p + |Text(s)|))
  {
    AtPart(c, p, Text(s), 0);
    if s.False? || s.True? { NotThatLiteral(c, p, NULL_TEXT); }
    if s.True? { NotThatLiteral(c, p, FALSE_TEXT); }
  }

  lemma NumReads(cd: Codec, c: seq<byte>, p: nat, t: seq<byte>, n: Number)
    requires NumOk(cd, t, n) && Stands(c, p, t) && Ends(c, p + |t|)
    ensures ParseNumber(cd, c, p) == Some(Read(JNumber(n), p + |t|))
  {
    TokenIs(c, p, t, MAX_NUMBER_TEXT);
    hide NumberToken, Stands;
  }

  lemma {:induction false} SyntaxReads(cd: Codec, c: seq<byte>, p: nat, s: Syntax, pd: nat)
    requires Terminated(c) && WellFormed(cd, s) && Stands(c, p, Text(s)) && Ends(c, p + |Text(s)|)
    requires pd <= 1000
    ensures p < |c| && ParseValue(cd, c, p, pd) == Within(Height(Value(cd, s)), pd, Read(Value(cd, s), p + |Text(s)|))
    decreases s, 2
  {
    hide ParseValue, Stands, Text, Value, WellFormed, Height;
    FirstOctet(cd, s);
    AtPart(c, p, Text(s), 0);
    IsFlat(cd, s);
    match s
    case Null => LiteralReads(cd, c, p, s, pd);
    case False => LiteralReads(cd, c, p, s, pd);
    case True => LiteralReads(cd, c, p, s, pd);
    case Num(_, _) => NumberReads(cd, c, p, s, pd);
    case Quoted(_) => QuotedReads(cd, c, p, s, pd);
    case EmptyArray(_) => EmptyReads(cd, c, p, s, pd);
    case EmptyObject(_) => EmptyReads(cd, c, p, s, pd);
    case Array(_) => ArrayReads(cd, c, p, s, pd);
    case Object(_) => ObjectReads(cd, c, p, s, pd);
  }

  lemma IsFlat(cd: Codec, s: Syntax)
    requires WellFormed(cd, s)
    ensures s.Null? || s.False? || s.True? || s.Num? || s.Quoted? ==> Height(Value(cd, s)) == 0
    ensures s.EmptyArray? || s.EmptyObject? ==> Height(Value(cd, s)) == 1
  {
    hide StrOk, StrMeans;
  }

  lemma NumberReads(cd: Codec, c: seq<byte>, p: nat, s: Syntax, pd: nat)
    requires Terminated(c) && s.Num? && WellFormed(cd, s) && p < |c| && Stands(c, p, Text(s)) && Ends(c, p + |Text(s)|)
    ensures ParseValue(cd, c, p, pd) == Some(Read(Value(cd, s), p + |Text(s)|))
  {
    hide ParseValue, ParseNumber, Stands, NumOk;
    NumStart(cd, s.text, s.number);
    AtPart(c, p, s.text, 0);
    NumReads(cd, c, p, s.text, s.number);
    NumberIs(cd, c, p, pd);
  }

  lemma QuotedReads(cd: Codec, c: seq<byte>, p: nat, s: Syntax, pd: nat)
    requires Terminated(c) && s.Quoted? && WellFormed(cd, s) && p < |c| && Stands(c, p, Text(s))
    ensures ParseValue(cd, c, p, pd) == Some(Read(Value(cd, s), p + |Text(s)|))
  {
    hide ParseValue, ParseString, Stands, StrOk, StrMeans, StrText;
    FirstQuote(c, p, s.str);
    JsonStrings.StringReads(c, p, s.str);
    QuoteIs(cd, c, p, pd);
  }

  lemma {:induction false} ArrayReads(cd: Codec, c: seq<byte>, p: nat, s: Syntax, pd: nat)
    requires Terminated(c) && s.Array? && WellFormed(cd, s) && p < |c| && Stands(c, p, Text(s)) && pd <= 1000
    ensures ParseValue(cd, c, p, pd) == Within(Height(Value(cd, s)), pd, Read(Value(cd, s), p + |Text(s)|))
    decreases s, 1
  {
    hide ParseValue, ParseItems, Skip, Stands, ElemsText, ElemsValue, ItemsHeight, ElemsOk;
    StandsSplit(c, p, [91], ElemsText(s.elems));
    AtPart(c, p, [91], 0);
    ElemsStart(c, p + 1, s.elems);
    if pd < 1000 { ElemsRead(cd, c, p + 1, s.elems, pd + 1); }
    ArrayIs(cd, c, p, pd);
  }

  lemma {:induction false} ObjectReads(cd: Codec, c: seq<byte>, p: nat, s: Syntax, pd: nat)
    requires Terminated(c) && s.Object? && WellFormed(cd, s) && p < |c| && Stands(c, p, Text(s)) && pd <= 1000
    ensures ParseValue(cd, c, p, pd) == Within(Height(Value(cd, s)), pd, Read(Value(cd, s), p + |Text(s)|))
    decreases s, 1
  {
    hide ParseValue, ParseMembers, Skip, Stands, FieldsText, FieldsValue, MembersHeight, FieldsOk;
    StandsSplit(c, p, [123], FieldsText(s.fields));
    AtPart(c, p, [123], 0);
    FieldsStart(c, p + 1, s.fields);
    if pd < 1000 { FieldsRead(cd, c, p + 1, s.fields, pd + 1); }
    ObjectIs(cd, c, p, pd);
  }

  lemma NumStart(cd: Codec, t: seq<byte>, n: Number)
    requires NumOk(cd, t, n)
    ensures t != [] && (t[0] == 45 || 48 <= t[0] <= 57)
  {
  }

  lemma EmptyReads(cd: Codec, c: seq<byte>, p: nat, s: Syntax, pd: nat)
    requires Terminated(c) && (s.EmptyArray? || s.EmptyObject?) && WellFormed(cd, s) && Stands(c, p, Text(s))
    ensures p < |c| && ParseValue(cd, c, p, pd) == Within(1, pd, Read(Value(cd, s), p + |Text(s)|))
  {
    hide ParseValue, ParseItems, ParseMembers, Skip, Stands;
    var open, close: byte := if s.EmptyArray? then 91 else 123, if s.EmptyArray? then 93 else 125;
    StandsSplit(c, p, [open], s.white + [close]);
    StandsSplit(c, p + 1, s.white, [close]);
    AtPart(c, p, [open], 0);
    AtPart(c, p + 1 + |s.white|, [close], 0);
    SkipWhite(c, p + 1, s.white);
    if s.EmptyArray? { ArrayIs(cd, c, p, pd); } else { ObjectIs(cd, c, p, pd); }
  }

  /** Where the parts of the first element stand. */
  lemma ElemParts(c: seq<byte>, i: nat, elems: Elems)
    requires elems.Elem? && Stands(c, i, ElemsText(elems))
    ensures var q := i + |elems.before|;
            var k := q + |Text(elems.value)|;
            var j := k + |elems.after|;
            && Stands(c, i, elems.before) && Stands(c, q, Text(elems.value)) && Stands(c, k, elems.after)
            && j < |c| && c[j] == (if elems.next == NoElem then 93 else 44)
            && (elems.next != NoElem ==> Stands(c, j + 1, ElemsText(elems.next)))
            && i + |ElemsText(elems)| == j + 1 + (if elems.next == NoElem then 0 else |ElemsText(elems.next)|)
  {
    hide Stands, Text, ElemsTail;
    var rest := ElemsTail(elems.next);
    StandsSplit(c, i, elems.before, Text(elems.value) + (elems.after + rest));
    StandsSplit(c, i + |elems.before|, Text(elems.value), elems.after + rest);
    StandsSplit(c, i + |elems.before| + |Text(elems.value)|, elems.after, rest);
    TailIs(c, i + |elems.before| + |Text(elems.value)| + |elems.after|, elems.next);
  }

  lemma TailIs(c: seq<byte>, j: nat, next: Elems)
    requires Stands(c, j, ElemsTail(next))
    ensures j < |c| && c[j] == if next == NoElem then 93 else 44
    ensures next != NoElem ==> Stands(c, j + 1, ElemsText(next))
    ensures |ElemsTail(next)| == 1 + if next == NoElem then 0 else |ElemsText(next)|
  {
    hide Stands, ElemsText;
    AtPart(c, j, ElemsTail(next), 0);
    if next != NoElem { StandsSplit(c, j, [44], ElemsText(next)); }
  }

  lemma ElemHeights(cd: Codec, elems: Elems)
    requires elems.Elem? && ElemsOk(cd, elems)
    ensures var h, a, b := ItemsHeight(ElemsValue(cd, elems)), Height(Value(cd, elems.value)), ItemsHeight(ElemsValue(cd, elems.next));
            h == if a >= b then a else b
    ensures elems.next == NoElem ==> ItemsHeight(ElemsValue(cd, elems.next)) == 0
    ensures ElemsValue(cd, elems) == Item(Value(cd, elems.value), ElemsValue(cd, elems.next))
    ensures elems.next == NoElem ==> ElemsValue(cd, elems.next) == NoItem
  {
    hide Value;
  }

  lemma ElemsStart(c: seq<byte>, i: nat, elems: Elems)
    requires elems.Elem? && Stands(c, i, ElemsText(elems))
    ensures i < |c|
  {
    ElemParts(c, i, elems);
  }

  lemma FieldsStart(c: seq<byte>, i: nat, f: Fields)
    requires f.Field? && Stands(c, i, FieldsText(f))
    ensures i < |c|
  {
    hide ValueText, StrText;
  }

  lemma {:induction false} ElemsRead(cd: Codec, c: seq<byte>, i: nat, elems: Elems, pd: nat)
    requires Terminated(c) && elems.Elem? && ElemsOk(cd, elems) && Stands(c, i, ElemsText(elems))
    requires pd <= 1000
    ensures i < |c| && c[Skip(c, i)] != 93
    ensures ParseItems(cd, c, i, pd) ==
              Within(ItemsHeight(ElemsValue(cd, elems)), pd, Read(ElemsValue(cd, elems), i + |ElemsText(elems)|))
    decreases elems, 1
  {
    hide ParseValue, ParseItems, Skip, Stands, Value, Text, ElemsText, ElemsValue, Height, ItemsHeight;
    var q := i + |elems.before|;
    var k := q + |Text(elems.value)|;
    ElemParts(c, i, elems);
    FirstOctet(cd, elems.value);
    AtPart(c, q, Text(elems.value), 0);
    SkipWhite(c, i, elems.before);
    AfterValue(c, k, elems.after);
    ElemHeights(cd, elems);
    SyntaxReads(cd, c, q, elems.value, pd);
    ItemsIs(cd, c, i, pd);
    if elems.next != NoElem {
      ElemsRead(cd, c, k + |elems.after| + 1, elems.next, pd);
    }
  }

  /** Up to its colon a field is read as its key. */
  lemma KeyReads(c: seq<byte>, i: nat, f: Fields)
    requires Terminated(c) && f.Field? && Stands(c, i, FieldsText(f)) && White(f.before) && StrOk(f.key) && White(f.beforeColon)
    ensures var q := i + |f.before|;
            var b := q + |StrText(f.key)|;
            var m := b + |f.beforeColon|;
            && i < |c| && Skip(c, i) == q && c[q] == 34 && ParseText(c, q) == Some(Read(StrMeans(f.key), b))
            && b < |c| && Skip(c, b) == m && c[m] == 58 && m + 1 + |ValueText(f)| <= |c| && Stands(c, m + 1, ValueText(f))
            && i + |FieldsText(f)| == m + 1 + |ValueText(f)|
  {
    hide Stands, StrText, ValueText, StrOk, StrMeans, White, ParseText, Skip, ParseString;
    var rest := [58] + ValueText(f);
    var q := i + |f.before|;
    var b := q + |StrText(f.key)|;
    StandsSplit(c, i, f.before, StrText(f.key) + (f.beforeColon + rest));
    StandsSplit(c, q, StrText(f.key), f.beforeColon + rest);
    StandsSplit(c, b, f.beforeColon, rest);
    ColonStands(c, b + |f.beforeColon|, ValueText(f));
    FirstQuote(c, q, f.key);
    SkipWhite(c, i, f.before);
    JsonStrings.StringReads(c, q, f.key);
    TextIs(c, q);
    AfterValue(c, b, f.beforeColon);
  }

  lemma ColonStands(c: seq<byte>, m: nat, more: seq<byte>)
    requires Stands(c, m, [58] + more)
    ensures m + 1 + |more| <= |c| && c[m] == 58 && Stands(c, m + 1, more)
  {
    StandsSplit(c, m, [58], more);
    AtPart(c, m, [58], 0);
  }

  lemma FieldTailIs(c: seq<byte>, j: nat, next: Fields)
    requires Stands(c, j, FieldsTail(next))
    ensures j < |c| && c[j] == if next == NoField then 125 else 44
    ensures next != NoField ==> Stands(c, j + 1, FieldsText(next))
    ensures |FieldsTail(next)| == 1 + if next == NoField then 0 else |FieldsText(next)|
  {
    hide Stands, FieldsText;
    AtPart(c, j, FieldsTail(next), 0);
    if next != NoField { StandsSplit(c, j, [44], FieldsText(next)); }
  }

  /** Where the parts behind the colon stand. */
  lemma ValueParts(c: seq<byte>, i: nat, f: Fields)
    requires f.Field? && Stands(c, i, ValueText(f))
    ensures var v := i + |f.afterColon|;
            var k := v + |Text(f.value)|;
            var j := k + |f.after|;
            && Stands(c, i, f.afterColon) && Stands(c, v, Text(f.value)) && Stands(c, k, f.after)
            && Stands(c, j, FieldsTail(f.next)) && i + |ValueText(f)| == j + |FieldsTail(f.next)|
  {
    hide Stands, Text, FieldsTail;
    var rest := FieldsTail(f.next);
    var v := i + |f.afterColon|;
    var k := v + |Text(f.value)|;
    StandsSplit(c, i, f.afterColon, Text(f.value) + (f.after + rest));
    StandsSplit(c, v, Text(f.value), f.after + rest);
    StandsSplit(c, k, f.after, rest);
  }

  lemma FieldHeights(cd: Codec, f: Fields)
    requires f.Field? && FieldsOk(cd, f)
    ensures var h, a, b := MembersHeight(FieldsValue(cd, f)), Height(Value(cd, f.value)), MembersHeight(FieldsValue(cd, f.next));
            h == if a >= b then a else b
    ensures f.next == NoField ==> MembersHeight(FieldsValue(cd, f.next)) == 0
    ensures FieldsValue(cd, f) == Member(StrMeans(f.key), Value(cd, f.value), FieldsValue(cd, f.next))
    ensures f.next == NoField ==> FieldsValue(cd, f.next) == NoMember
  {
    hide Value, StrMeans, StrOk;
  }

  /** The value of a field behind its colon, and what follows it. */
  lemma {:induction false} FieldValueReads(cd: Codec, c: seq<byte>, i: nat, f: Fields, pd: nat)
    requires f.Field? && White(f.afterColon) && WellFormed(cd, f.value) && White(f.after) && pd <= 1000
    requires Terminated(c) && i < |c| && Stands(c, i, ValueText(f))
    ensures var v := i + |f.afterColon|;
            var k := v + |Text(f.value)|;
            var j := k + |f.after|;
            && Skip(c, i) == v && v < |c| && k < |c| && Skip(c, k) == j
            && ParseValue(cd, c, v, pd) == Within(Height(Value(cd, f.value)), pd, Read(Value(cd, f.value), k))
            && c[j] == (if f.next == NoField then 125 else 44)
            && (f.next != NoField ==> Stands(c, j + 1, FieldsText(f.next)))
            && i + |ValueText(f)| == j + 1 + (if f.next == NoField then 0 else |FieldsText(f.next)|)
    decreases f, 0
  {
    hide ParseValue, Skip, Stands, Value, Text, FieldsText, ValueText, FieldsTail, Height, White, WellFormed;
    var v := i + |f.afterColon|;
    var k := v + |Text(f.value)|;
    ValueParts(c, i, f);
    FieldTailIs(c, k + |f.after|, f.next);
    FirstOctet(cd, f.value);
    AtPart(c, v, Text(f.value), 0);
    SkipWhite(c, i, f.afterColon);
    AfterValue(c, k, f.after);
    SyntaxReads(cd, c, v, f.value, pd);
  }

  lemma {:induction false} FieldsRead(cd: Codec, c: seq<byte>, i: nat, f: Fields, pd: nat)
    requires Terminated(c) && f.Field? && FieldsOk(cd, f) && Stands(c, i, FieldsText(f))
    requires pd <= 1000
    ensures i < |c| && c[Skip(c, i)] != 125
    ensures ParseMembers(cd, c, i, pd) ==
              Within(MembersHeight(FieldsValue(cd, f)), pd, Read(FieldsValue(cd, f), i + |FieldsText(f)|))
    decreases f, 1
  {
    hide ParseValue, ParseMembers, ParseText, Skip, Stands, Value, Text, FieldsText, ValueText, FieldsValue, Height,
         MembersHeight, StrOk, StrMeans, StrText, White;
    var m := i + |f.before| + |StrText(f.key)| + |f.beforeColon|;
    KeyReads(c, i, f);
    ColonInside(c, m, f);
    FieldValueReads(cd, c, m + 1, f, pd);
    FieldHeights(cd, f);
    MembersIs(cd, c, i, pd);
    if f.next != NoField {
      FieldsRead(cd, c, m + 1 + |f.afterColon| + |Text(f.value)| + |f.after| + 1, f.next, pd);
    }
  }

  lemma ColonInside(c: seq<byte>, m: nat, f: Fields)
    requires f.Field? && Stands(c, m + 1, ValueText(f))
    ensures m + 1 < |c|
  {
    var tail := FieldsTail(f.next);
    hide Text;
  }

  lemma FirstQuote(c: seq<byte>, q: nat, s: Str)
    requires Stands(c, q, StrText(s))
    ensures q < |c| && c[q] == 34
  {
    AtPart(c, q, StrText(s), 0);
  }

  // ----- What is read is spelled -----

  lemma {:induction false} TokenStands(c: seq<byte>, p: nat, room: nat)
    requires p <= |c|
    ensures var t := NumberToken(c, p, room);
            && Stands(c, p, t) && (forall i :: 0 <= i < |t| ==> NumberByte(t[i])) && (forall k :: p <= k < p + |t| ==> NumberByte(c[k]))
    decreases room
  {
    if room > 0 && p < |c| && NumberByte(c[p]) {
      TokenStands(c, p + 1, room - 1);
      var t := NumberToken(c, p + 1, room - 1);
      assert c[p..p + 1 + |t|] == [c[p]] + c[p + 1..p + 1 + |t|];
    }
  }

  /** A number that is not followed by a byte of a number is the whole token. */
  lemma WholeToken(cd: Codec, c: seq<byte>, p: nat)
    requires p <= |c| && ParseNumber(cd, c, p).Some? && Ends(c, ParseNumber(cd, c, p).value.next)
    ensures var t := NumberToken(c, p, MAX_NUMBER_TEXT);
            && t != [] && Stands(c, p, t) && (forall i :: 0 <= i < |t| ==> NumberByte(t[i])) && cd.read(t).Some?
            && cd.read(t).value.next == |t|
            && ParseNumber(cd, c, p).value == Read(JNumber(cd.read(t).value.value), p + |t|)
  {
    TokenStands(c, p, MAX_NUMBER_TEXT);
    hide NumberToken, Stands;
  }

  lemma NumFound(cd: Codec, c: seq<byte>, p: nat) returns (s: Syntax)
    requires Terminated(c) && p < |c| && (c[p] == 45 || 48 <= c[p] <= 57)
    requires ParseNumber(cd, c, p).Some? && Ends(c, ParseNumber(cd, c, p).value.next)
    ensures s.Num? && NumOk(cd, s.text, s.number) && Stands(c, p, s.text)
    ensures ParseNumber(cd, c, p).value == Read(JNumber(s.number), p + |s.text|)
  {
    hide ParseNumber, NumberToken, Stands;
    WholeToken(cd, c, p);
    var t := NumberToken(c, p, MAX_NUMBER_TEXT);
    AtPart(c, p, t, 0);
    s := Num(t, cd.read(t).value.value);
  }

  lemma {:induction false} SyntaxFound(cd: Codec, c: seq<byte>, p: nat, pd: nat) returns (s: Syntax)
    requires Terminated(c) && p < |c| && ParseValue(cd, c, p, pd).Some? && Ends(c, ParseValue(cd, c, p, pd).value.next)
    requires pd <= 1000
    ensures WellFormed(cd, s) && Stands(c, p, Text(s)) && Height(Value(cd, s)) + pd <= 1000
    ensures ParseValue(cd, c, p, pd).value == Read(Value(cd, s), p + |Text(s)|)
    decreases |c| - p, 0
  {
    var r := ParseValue(cd, c, p, pd).value;
    if StartsAt(c, p, NULL_TEXT) {
      s := Null;
    } else if StartsAt(c, p, FALSE_TEXT) {
      s := False;
    } else if StartsAt(c, p, TRUE_TEXT) {
      s := True;
    } else if c[p] == 34 {
      QuoteIs(cd, c, p, pd);
      var str := JsonStrings.StringFound(c, p);
      s := Quoted(str);
    } else if c[p] == 45 || 48 <= c[p] <= 57 {
      NumberIs(cd, c, p, pd);
      s := NumFound(cd, c, p);
    } else if c[p] == 91 {
      s := ArrayFound(cd, c, p, pd);
    } else {
      s := ObjectFound(cd, c, p, pd);
    }
  }

  lemma {:induction false} ArrayFound(cd: Codec, c: seq<byte>, p: nat, pd: nat) returns (s: Syntax)
    requires Terminated(c) && p < |c| && c[p] == 91 && ParseValue(cd, c, p, pd).Some?
    ensures WellFormed(cd, s) && Stands(c, p, Text(s)) && Height(Value(cd, s)) + pd <= 1000
    ensures ParseValue(cd, c, p, pd).value == Read(Value(cd, s), p + |Text(s)|)
    decreases |c| - p - 1, 2
  {
    hide ParseValue, ParseItems, Skip, Stands, White, ElemsText, ElemsOk, ElemsValue, ItemsHeight;
    ArrayIs(cd, c, p, pd);
    var j := Skip(c, p + 1);
    OneByte(c, p);
    if c[j] == 93 {
      EmptyFound(c, p);
      s := EmptyArray(c[p + 1..j]);
      IsFlat(cd, s);
    } else {
      var elems := ElemsFound(cd, c, p + 1, pd + 1);
      s := Array(elems);
      JsonStrings.StandsJoin(c, p, [91], ElemsText(elems));
    }
  }

  lemma EmptyFound(c: seq<byte>, p: nat)
    requires p + 1 < |c|
    ensures var j := Skip(c, p + 1);
            White(c[p + 1..j]) && Stands(c, p, [c[p]] + (c[p + 1..j] + [c[j]])) && |c[p + 1..j]| == j - p - 1
  {
    var j := Skip(c, p + 1);
    Skipped(c, p + 1);
    assert c[p..j + 1] == [c[p]] + (c[p + 1..j] + [c[j]]);
  }

  lemma Behind(c: seq<byte>, i: nat)
    requires i < |c| && c[Skip(c, i)] in {44, 58, 93, 125}
    ensures Ends(c, i)
  {
    Skipped(c, i);
  }

  lemma ElemJoins(c: seq<byte>, i: nat, elems: Elems)
    requires elems.Elem?
    requires var q := i + |elems.before|;
             var k := q + |Text(elems.value)|;
             var j := k + |elems.after|;
             && Stands(c, i, elems.before) && Stands(c, q, Text(elems.value)) && Stands(c, k, elems.after)
             && Stands(c, j, ElemsTail(elems.next))
    ensures Stands(c, i, ElemsText(elems))
    ensures |ElemsText(elems)| == |elems.before| + |Text(elems.value)| + |elems.after| + |ElemsTail(elems.next)|
  {
    hide Stands, Text, ElemsTail;
    var rest := ElemsTail(elems.next);
    JsonStrings.StandsJoin(c, i + |elems.before| + |Text(elems.value)|, elems.after, rest);
    JsonStrings.StandsJoin(c, i + |elems.before|, Text(elems.value), elems.after + rest);
    JsonStrings.StandsJoin(c, i, elems.before, Text(elems.value) + (elems.after + rest));
  }

  lemma {:induction false} ElemsFound(cd: Codec, c: seq<byte>, i: nat, pd: nat) returns (elems: Elems)
    requires Terminated(c) && i < |c| && ParseItems(cd, c, i, pd).Some? && pd <= 1000
    ensures elems.Elem? && ElemsOk(cd, elems) && Stands(c, i, ElemsText(elems)) && ItemsHeight(ElemsValue(cd, elems)) + pd <= 1000
    ensures ParseItems(cd, c, i, pd).value == Read(ElemsValue(cd, elems), i + |ElemsText(elems)|)
    decreases |c| - i, 1
  {
    hide ParseValue, ParseItems, Skip, Stands, Text, Value, Height, White, ElemsText, ElemsTail, ElemsOk, ElemsValue, ItemsHeight;
    ItemsIs(cd, c, i, pd);
    var q := Skip(c, i);
    var v := ParseValue(cd, c, q, pd).value;
    var j := Skip(c, v.next);
    Skipped(c, i);
    Skipped(c, v.next);
    Behind(c, v.next);
    var s := SyntaxFound(cd, c, q, pd);
    var next := NoElem;
    if c[j] == 44 {
      next := ElemsFound(cd, c, j + 1, pd);
    }
    NoElems(cd);
    TailStands(c, j, next);
    elems := Elem(c[i..q], s, c[v.next..j], next);
    ElemMade(cd, elems, pd);
    ElemJoins(c, i, elems);
  }

  lemma NoElems(cd: Codec)
    ensures ElemsOk(cd, NoElem) && ElemsValue(cd, NoElem) == NoItem && ItemsHeight(NoItem) == 0
  {
  }

  lemma TailStands(c: seq<byte>, j: nat, next: Elems)
    requires j < |c| && c[j] == (if next == NoElem then 93 else 44) && (next != NoElem ==> Stands(c, j + 1, ElemsText(next)))
    ensures Stands(c, j, ElemsTail(next))
    ensures |ElemsTail(next)| == 1 + if next == NoElem then 0 else |ElemsText(next)|
  {
    hide ElemsText;
    OneByte(c, j);
    if next != NoElem { JsonStrings.StandsJoin(c, j, [44], ElemsText(next)); }
  }

  lemma ElemMade(cd: Codec, elems: Elems, pd: nat)
    requires elems.Elem? && White(elems.before) && WellFormed(cd, elems.value) && White(elems.after) && ElemsOk(cd, elems.next)
    requires Height(Value(cd, elems.value)) + pd <= 1000 && ItemsHeight(ElemsValue(cd, elems.next)) + pd <= 1000
    ensures ElemsOk(cd, elems) && ItemsHeight(ElemsValue(cd, elems)) + pd <= 1000
    ensures ElemsValue(cd, elems) == Item(Value(cd, elems.value), ElemsValue(cd, elems.next))
  {
    hide Value, WellFormed, White;
  }

  lemma NoFields(cd: Codec)
    ensures FieldsOk(cd, NoField) && FieldsValue(cd, NoField) == NoMember && MembersHeight(NoMember) == 0
  {
  }

  lemma FieldTailStands(c: seq<byte>, j: nat, next: Fields)
    requires j < |c| && c[j] == (if next == NoField then 125 else 44) && (next != NoField ==> Stands(c, j + 1, FieldsText(next)))
    ensures Stands(c, j, FieldsTail(next))
    ensures |FieldsTail(next)| == 1 + if next == NoField then 0 else |FieldsText(next)|
  {
    hide FieldsText;
    OneByte(c, j);
    if next != NoField { JsonStrings.StandsJoin(c, j, [44], FieldsText(next)); }
  }

  lemma FieldMade(cd: Codec, f: Fields, pd: nat)
    requires f.Field? && White(f.before) && StrOk(f.key) && White(f.beforeColon) && White(f.afterColon)
    requires WellFormed(cd, f.value) && White(f.after) && FieldsOk(cd, f.next)
    requires Height(Value(cd, f.value)) + pd <= 1000 && MembersHeight(FieldsValue(cd, f.next)) + pd <= 1000
    ensures FieldsOk(cd, f) && MembersHeight(FieldsValue(cd, f)) + pd <= 1000
    ensures FieldsValue(cd, f) == Member(StrMeans(f.key), Value(cd, f.value), FieldsValue(cd, f.next))
  {
    hide Value, WellFormed, White, StrOk, StrMeans;
  }

  lemma OneByte(c: seq<byte>, j: nat)
    requires j < |c|
    ensures Stands(c, j, [c[j]])
  {
  }

  lemma {:induction false} ObjectFound(cd: Codec, c: seq<byte>, p: nat, pd: nat) returns (s: Syntax)
    requires Terminated(c) && p < |c| && c[p] == 123 && ParseValue(cd, c, p, pd).Some?
    ensures WellFormed(cd, s) && Stands(c, p, Text(s)) && Height(Value(cd, s)) + pd <= 1000
    ensures ParseValue(cd, c, p, pd).value == Read(Value(cd, s), p + |Text(s)|)
    decreases |c| - p - 1, 2
  {
    hide ParseValue, ParseMembers, Skip, Stands, White, FieldsText, FieldsOk, FieldsValue, MembersHeight;
    ObjectIs(cd, c, p, pd);
    var j := Skip(c, p + 1);
    OneByte(c, p);
    if c[j] == 125 {
      EmptyFound(c, p);
      s := EmptyObject(c[p + 1..j]);
      IsFlat(cd, s);
    } else {
      var fields := FieldsFound(cd, c, p + 1, pd + 1);
      s := Object(fields);
      JsonStrings.StandsJoin(c, p, [123], FieldsText(fields));
    }
  }

  lemma ValueJoins(c: seq<byte>, i: nat, f: Fields)
    requires f.Field?
    requires var v := i + |f.afterColon|;
             var k := v + |Text(f.value)|;
             && Stands(c, i, f.afterColon) && Stands(c, v, Text(f.value)) && Stands(c, k, f.after)
             && Stands(c, k + |f.after|, FieldsTail(f.next))
    ensures Stands(c, i, ValueText(f))
    ensures |ValueText(f)| == |f.afterColon| + |Text(f.value)| + |f.after| + |FieldsTail(f.next)|
  {
    hide Stands, Text, FieldsTail;
    var rest := FieldsTail(f.next);
    var v := i + |f.afterColon|;
    var k := v + |Text(f.value)|;
    JsonStrings.StandsJoin(c, k, f.after, rest);
    JsonStrings.StandsJoin(c, v, Text(f.value), f.after + rest);
    JsonStrings.StandsJoin(c, i, f.afterColon, Text(f.value) + (f.after + rest));
  }

  /** The key, the colon and the white space around them, in front of what stands behind the colon. */
  lemma KeyJoins(c: seq<byte>, i: nat, q: nat, b: nat, m: nat, f: Fields)
    requires f.Field? && i <= q <= |c| && q + |StrText(f.key)| == b <= m < |c|
    requires f.before == c[i..q] && Stands(c, q, StrText(f.key)) && f.beforeColon == c[b..m] && c[m] == 58
    requires Stands(c, m + 1, ValueText(f))
    ensures Stands(c, i, FieldsText(f)) && i + |FieldsText(f)| == m + 1 + |ValueText(f)|
  {
    SliceStands(c, i, q);
    SliceStands(c, b, m);
    hide Stands, StrText, ValueText;
    OneByte(c, m);
    JsonStrings.StandsJoin(c, m, [58], ValueText(f));
    JsonStrings.StandsJoin(c, b, f.beforeColon, [58] + ValueText(f));
    JsonStrings.StandsJoin(c, q, StrText(f.key), f.beforeColon + ([58] + ValueText(f)));
    JsonStrings.StandsJoin(c, i, f.before, StrText(f.key) + (f.beforeColon + ([58] + ValueText(f))));
  }

  lemma SliceStands(c: seq<byte>, i: nat, j: nat)
    requires i <= j <= |c|
    ensures Stands(c, i, c[i..j]) && |c[i..j]| == j - i
  {
  }

  /** The key and the colon in front of a value that is read. */
  lemma KeyFound(cd: Codec, c: seq<byte>, i: nat, pd: nat) returns (key: Str, b: nat, m: nat)
    requires Terminated(c) && i < |c| && ParseMembers(cd, c, i, pd).Some?
    ensures StrOk(key) && Stands(c, Skip(c, i), StrText(key)) && Skip(c, i) + |StrText(key)| == b <= m && m + 1 < |c|
    ensures ParseText(c, Skip(c, i)) == Some(Read(StrMeans(key), b)) && m == Skip(c, b) && c[m] == 58
    ensures White(c[i..Skip(c, i)]) && White(c[b..m])
  {
    hide ParseValue, ParseMembers, ParseText, ParseString, Skip, Stands, StrOk, StrText, StrMeans, White;
    MembersIs(cd, c, i, pd);
    TextIs(c, Skip(c, i));
    key := JsonStrings.StringFound(c, Skip(c, i));
    b := Skip(c, i) + |StrText(key)|;
    m := Skip(c, b);
    Skipped(c, i);
    Skipped(c, b);
  }

  lemma {:induction false} FieldsFound(cd: Codec, c: seq<byte>, i: nat, pd: nat) returns (f: Fields)
    requires Terminated(c) && i < |c| && ParseMembers(cd, c, i, pd).Some? && pd <= 1000
    ensures f.Field? && FieldsOk(cd, f) && Stands(c, i, FieldsText(f)) && MembersHeight(FieldsValue(cd, f)) + pd <= 1000
    ensures ParseMembers(cd, c, i, pd).value == Read(FieldsValue(cd, f), i + |FieldsText(f)|)
    decreases |c| - i, 1
  {
    hide ParseValue, ParseMembers, ParseText, ParseString, Skip, Stands, Text, Value, Height, StrOk, StrText, StrMeans, White,
         FieldsText, ValueText, FieldsTail, FieldsOk, FieldsValue, MembersHeight, WellFormed;
    var key, b, m := KeyFound(cd, c, i, pd);
    MembersIs(cd, c, i, pd);
    var p := Skip(c, m + 1);
    var v := ParseValue(cd, c, p, pd).value;
    var j := Skip(c, v.next);
    Skipped(c, m + 1);
    Skipped(c, v.next);
    Behind(c, v.next);
    var s := SyntaxFound(cd, c, p, pd);
    var next := NoField;
    if c[j] == 44 {
      next := FieldsFound(cd, c, j + 1, pd);
    }
    NoFields(cd);
    FieldTailStands(c, j, next);
    f := Field(c[i..Skip(c, i)], key, c[b..m], c[m + 1..p], s, c[v.next..j], next);
    FieldMade(cd, f, pd);
    ValueJoins(c, m + 1, f);
    KeyJoins(c, i, Skip(c, i), b, m, f);
  }

  // ----- Whole texts -----

  lemma {:induction false} SkipToEnd(c: seq<byte>, i: nat)
    requires i < |c| && forall k :: i <= k < |c| ==> c[k] <= 32
    ensures Skip(c, i) == |c| - 1
    decreases |c| - i
  {
    if i + 1 < |c| { SkipToEnd(c, i + 1); }
  }

  lemma BomSkipped(c: seq<byte>, bom: seq<byte>, rest: seq<byte>)
    requires c == bom + rest && |rest| >= 2 && (bom == [] || bom == BOM) && rest[0] != 239
    ensures SkipBom(c) == |bom|
  {
    if bom == [] {
      assert |c| > 4 ==> c[..3][0] == rest[0];
    } else {
      assert c[..3] == bom;
    }
  }

  /** Where the parts of a text stand in front of the terminator. */
  lemma TextParts(c: seq<byte>, bom: seq<byte>, before: seq<byte>, text: seq<byte>, after: seq<byte>)
    requires c == bom + (before + (text + after)) + [0]
    ensures Terminated(c) && Stands(c, |bom|, before) && Stands(c, |bom| + |before|, text)
    ensures Stands(c, |bom| + |before| + |text|, after + [0]) && |bom| + |before| + |text| + |after| + 1 == |c|
    ensures c == bom + (before + (text + (after + [0])))
  {
    assert c == bom + (before + (text + (after + [0])));
    WholeStands(c);
    StandsSplit(c, 0, bom, before + (text + (after + [0])));
    StandsSplit(c, |bom|, before, text + (after + [0]));
    StandsSplit(c, |bom| + |before|, text, after + [0]);
    hide Stands;
  }

  lemma WholeStands(c: seq<byte>)
    ensures Stands(c, 0, c)
  {
  }

  lemma WhiteRest(c: seq<byte>, i: nat, after: seq<byte>)
    requires Stands(c, i, after + [0]) && White(after) && i + |after| + 1 == |c|
    ensures Ends(c, i) && Skip(c, i) == |c| - 1 && c[|c| - 1] == 0
  {
    forall k | i <= k < |c| ensures c[k] <= 32 {
      AtPart(c, i, after + [0], k - i);
    }
    AtPart(c, i, after + [0], |after|);
    SkipToEnd(c, i);
  }

  /** A text of the grammar is read as what it means, unless it is nested too deeply. */
  lemma SpelledParses(cd: Codec, bom: seq<byte>, before: seq<byte>, s: Syntax, after: seq<byte>, whole: bool)
    requires (bom == [] || bom == BOM) && White(before) && White(after) && WellFormed(cd, s)
    ensures Parse(cd, bom + (before + (Text(s) + after)), whole) ==
              if Height(Value(cd, s)) <= 1000 then Some(Value(cd, s)) else None
  {
    hide ParseValue, Skip, Text, Value, WellFormed, Height, SkipBom, Stands, White;
    var c := bom + (before + (Text(s) + after)) + [0];
    TextParts(c, bom, before, Text(s), after);
    FirstOctet(cd, s);
    FirstOfText(before, Text(s), after + [0]);
    BomSkipped(c, bom, before + (Text(s) + (after + [0])));
    var p := |bom| + |before|;
    AtPart(c, p, Text(s), 0);
    SkipWhite(c, |bom|, before);
    WhiteRest(c, p + |Text(s)|, after);
    SyntaxReads(cd, c, p, s, 0);
  }

  lemma FirstOfText(before: seq<byte>, text: seq<byte>, rest: seq<byte>)
    requires White(before) && text != [] && text[0] != 239 && rest != []
    ensures var all := before + (text + rest); |all| >= 2 && all[0] != 239
  {
  }

  /**
    Every text is accepted as a whole if and only if the grammar spells it, nested at most 1000 deep,
    and then its value is what it means.
   */
  lemma AcceptsExactly(cd: Codec, text: seq<byte>, v: Json)
    ensures Parse(cd, text, true) == Some(v) <==> exists bom, before, s, after :: Spells(cd, text, v, bom, before, s, after)
  {
    hide Parse, Text, Value, WellFormed, Height;
    if Parse(cd, text, true) == Some(v) {
      var bom, before, s, after := TextFound(cd, text);
      assert Spells(cd, text, v, bom, before, s, after);
    }
    if bom, before, s, after :| Spells(cd, text, v, bom, before, s, after) {
      SpelledParses(cd, bom, before, s, after, true);
    }
  }

  lemma TextFound(cd: Codec, text: seq<byte>) returns (bom: seq<byte>, before: seq<byte>, s: Syntax, after: seq<byte>)
    requires Parse(cd, text, true).Some?
    ensures Spells(cd, text, Parse(cd, text, true).value, bom, before, s, after)
  {
    hide ParseValue, Skip, Text, Value, WellFormed, Height, White;
    var c := text + [0];
    var b := SkipBom(c);
    var p := Skip(c, b);
    var r := ParseValue(cd, c, p, 0).value;
    var j := Skip(c, r.next);
    Skipped(c, b);
    Skipped(c, r.next);
    EndReached(c, r.next);
    s := SyntaxFound(cd, c, p, 0);
    bom, before, after := c[..b], c[b..p], c[r.next..j];
    Cut(text, c, b, p, r.next, Text(s));
  }

  lemma EndReached(c: seq<byte>, i: nat)
    requires Terminated(c) && i < |c| && c[Skip(c, i)] == 0
    ensures Ends(c, i) && Skip(c, i) == |c| - 1
  {
    Skipped(c, i);
  }

  lemma Cut(text: seq<byte>, c: seq<byte>, b: nat, p: nat, e: nat, part: seq<byte>)
    requires c == text + [0] && b == SkipBom(c) && b <= p <= e <= |text| && Stands(c, p, part) && e == p + |part|
    ensures (c[..b] == [] || c[..b] == BOM) && text == c[..b] + (c[b..p] + (part + c[e..|c| - 1]))
  {
    assert c[p..e] == part;
  }
}
