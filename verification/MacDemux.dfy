/**
  The demultiplexer for uplink MAC PDUs (ulp/src/lteMac.c:249-843): subheaders are read first, one
  entry is recorded for each, and then the payload is cut up in the same order.

  `mem` is the memory from the start of the PDU on.  It may go on past the PDU, as the subheader
  loop does not compare its read position with the length; past `mem` it reads zeros.
 */
module MacDemux {
  import opened Bytes

  const MAX_NUM_CHANNELS: nat := 17
  const CCCH: nat := 0
  const PADDING: nat := 31

  datatype DemuxData = DemuxData(lchId: nat, length: nat)

  /** The loop variables: `dataPtrPos` counts header bytes, `remaining` payload not yet claimed. */
  datatype Cursor = Cursor(pData: nat, dataPtrPos: nat, remaining: nat, recorded: seq<DemuxData>, more: bool)

  function At(mem: seq<byte>, i: nat): nat {
    if i < |mem| then mem[i] else 0
  }

  function Record(recorded: seq<DemuxData>, lchId: nat, length: nat): seq<DemuxData> {
    if |recorded| < MAX_NUM_CHANNELS then recorded + [DemuxData(lchId, length)] else recorded
  }

  /** Payload size of a MAC control element. */
  function CeLength(lcId: nat): nat {
    match lcId
    case 27 => 2
    case 30 => 3
    case _ => 1
  }

  predicate IsSdu(lcId: nat) {
    lcId <= 10
  }

  predicate IsCe(lcId: nat) {
    26 <= lcId <= 30
  }

  // ----- One subheader -----

  function StepSdu(mem: seq<byte>, c: Cursor, lcId: nat, more: bool): Option<Cursor> {
    if !more then
      var p := c.dataPtrPos + 1;
      if c.remaining <= p then None
      else Claim(c.(dataPtrPos := p), lcId, c.remaining - p, more)
    else if At(mem, c.pData + 1) >= 128 then
      Claim(c.(pData := c.pData + 2, dataPtrPos := c.dataPtrPos + 3), lcId,
            At(mem, c.pData + 1) % 128 * 256 + At(mem, c.pData + 2), more)
    else
      Claim(c.(pData := c.pData + 1, dataPtrPos := c.dataPtrPos + 2), lcId, At(mem, c.pData + 1), more)
  }

  function Claim(c: Cursor, lcId: nat, length: nat, more: bool): Option<Cursor> {
    if length == 0 || c.remaining < length || (lcId == CCCH && length > 100) then None
    else Some(c.(pData := c.pData + 1, recorded := Record(c.recorded, lcId, length),
                 remaining := c.remaining - length, more := more))
  }

  function StepCe(c: Cursor, lcId: nat, more: bool): Option<Cursor> {
    if c.remaining < CeLength(lcId) then None
    else Some(Cursor(c.pData + 1, c.dataPtrPos + 1, c.remaining - CeLength(lcId),
                     Record(c.recorded, lcId, CeLength(lcId)), more))
  }

  function StepPadding(c: Cursor, more: bool): Option<Cursor> {
    var p := c.dataPtrPos + 1;
    if more then Some(c.(pData := c.pData + 1, dataPtrPos := p, more := true))
    else
      var length := if c.remaining > p then c.remaining - p else p - c.remaining;
      if c.remaining < length then None
      else Some(c.(pData := c.pData + 1, dataPtrPos := p, remaining := c.remaining - length, more := false))
  }

  /** One turn of the loop; an unknown channel is skipped and its byte not counted as header. */
  function Step(mem: seq<byte>, c: Cursor): Option<Cursor> {
    var lcId, more := At(mem, c.pData) % 32, At(mem, c.pData) / 32 % 2 == 1;
    if IsSdu(lcId) then StepSdu(mem, c, lcId, more)
    else if IsCe(lcId) then StepCe(c, lcId, more)
    else if lcId == PADDING then StepPadding(c, more)
    else Some(c.(pData := c.pData + 1, more := more))
  }

  lemma StepAdvances(mem: seq<byte>, c: Cursor)
    ensures Step(mem, c).Some? ==> Step(mem, c).value.pData > c.pData
    ensures Step(mem, c).Some? && Step(mem, c).value.more ==> c.pData < |mem|
  {
  }

  /** All subheaders from the cursor on; None when decoding fails. */
  function Parse(mem: seq<byte>, c: Cursor): Option<Cursor>
    decreases if c.pData < |mem| then |mem| - c.pData else 0
  {
    StepAdvances(mem, c);
    match Step(mem, c)
    case None => None
    case Some(d) => if d.more then Parse(mem, d) else Some(d)
  }

  function Start(length: nat): Cursor {
    Cursor(0, 0, length, [], true)
  }

  // ----- What any PDU leaves true -----

  function Total(recorded: seq<DemuxData>): nat {
    if recorded == [] then 0 else Total(recorded[..|recorded| - 1]) + recorded[|recorded| - 1].length
  }

  function LcId(mem: seq<byte>, c: Cursor): nat {
    At(mem, c.pData) % 32
  }

  predicate Unknown(lcId: nat) {
    !IsSdu(lcId) && !IsCe(lcId) && lcId != PADDING
  }

  /** The payload a subheader claims for an SDU or control element. */
  function Claimed(mem: seq<byte>, c: Cursor): nat {
    var lcId, more := LcId(mem, c), At(mem, c.pData) / 32 % 2 == 1;
    if IsCe(lcId) then CeLength(lcId)
    else if !IsSdu(lcId) then 0
    else if !more then (if c.remaining > c.dataPtrPos + 1 then c.remaining - (c.dataPtrPos + 1) else 0)
    else if At(mem, c.pData + 1) >= 128 then At(mem, c.pData + 1) % 128 * 256 + At(mem, c.pData + 2)
    else At(mem, c.pData + 1)
  }

  /** The bytes a padding subheader at the end takes off. */
  function EndPadding(mem: seq<byte>, c: Cursor): nat {
    var p := c.dataPtrPos + 1;
    if LcId(mem, c) != PADDING || At(mem, c.pData) / 32 % 2 == 1 then 0
    else if c.remaining > p then c.remaining - p
    else p - c.remaining
  }

  /** All subheaders a successful decode reads from the cursor on, each with the cursor in front of it. */
  function Subheaders(mem: seq<byte>, c: Cursor): (r: seq<Cursor>)
    ensures r != [] && r[0] == c
    decreases if c.pData < |mem| then |mem| - c.pData else 0
  {
    StepAdvances(mem, c);
    match Step(mem, c)
    case None => [c]
    case Some(d) => if d.more then [c] + Subheaders(mem, d) else [c]
  }

  /** How many of the subheaders name an unknown channel. */
  function Skipped(mem: seq<byte>, read: seq<Cursor>): nat {
    if read == [] then 0
    else (if Unknown(LcId(mem, read[0])) then 1 else 0) + Skipped(mem, read[1..])
  }

  /** The payload of those that found no free entry. */
  function Unlisted(mem: seq<byte>, read: seq<Cursor>): nat {
    if read == [] then 0
    else (if |read[0].recorded| == MAX_NUM_CHANNELS then Claimed(mem, read[0]) else 0) + Unlisted(mem, read[1..])
  }

  function Last(read: seq<Cursor>): Cursor
    requires read != []
  {
    read[|read| - 1]
  }

  lemma StepCounts(mem: seq<byte>, c: Cursor)
    requires Step(mem, c).Some? && |c.recorded| <= MAX_NUM_CHANNELS
    ensures var d := Step(mem, c).value;
            && |d.recorded| <= MAX_NUM_CHANNELS
            && d.pData - c.pData == d.dataPtrPos - c.dataPtrPos + (if Unknown(LcId(mem, c)) then 1 else 0)
            && c.remaining == d.remaining + Claimed(mem, c) + EndPadding(mem, c)
            && Total(d.recorded) == Total(c.recorded) + (if |c.recorded| < MAX_NUM_CHANNELS then Claimed(mem, c) else 0)
            && (d.more ==> EndPadding(mem, c) == 0)
  {
    var d := Step(mem, c).value;
    if |d.recorded| > |c.recorded| { assert d.recorded[..|c.recorded|] == c.recorded; }
  }

  /**
    For any memory whatsoever: the bytes read are the header bytes counted and one for each unknown
    subheader, and the PDU is the payload recorded, what found no entry, end padding and the rest.
   */
  lemma {:induction false} ParseAccounts(mem: seq<byte>, c: Cursor)
    requires Parse(mem, c).Some? && |c.recorded| <= MAX_NUM_CHANNELS
    ensures var d, read := Parse(mem, c).value, Subheaders(mem, c);
            && |d.recorded| <= MAX_NUM_CHANNELS
            && d.pData - c.pData == d.dataPtrPos - c.dataPtrPos + Skipped(mem, read)
            && c.remaining + Total(c.recorded)
               == d.remaining + Total(d.recorded) + Unlisted(mem, read) + EndPadding(mem, Last(read))
            && Step(mem, Last(read)) == Some(d) && !d.more
    decreases if c.pData < |mem| then |mem| - c.pData else 0
  {
    StepAdvances(mem, c);
    StepCounts(mem, c);
    var d := Step(mem, c).value;
    if d.more {
      ParseAccounts(mem, d);
      assert Subheaders(mem, c)[1..] == Subheaders(mem, d);
    } else {
      assert Subheaders(mem, c)[1..] == [];
    }
  }

  /** The header count is where the payload starts if and only if every channel was known. */
  lemma HeaderCountIsExact(mem: seq<byte>, length: nat)
    requires Parse(mem, Start(length)).Some?
    ensures var d := Parse(mem, Start(length)).value;
            d.dataPtrPos == d.pData <==> forall c :: c in Subheaders(mem, Start(length)) ==> !Unknown(LcId(mem, c))
  {
    ParseAccounts(mem, Start(length));
    SkippedNone(mem, Subheaders(mem, Start(length)));
  }

  lemma {:induction false} SkippedNone(mem: seq<byte>, read: seq<Cursor>)
    ensures Skipped(mem, read) == 0 <==> forall c :: c in read ==> !Unknown(LcId(mem, c))
  {
    if read != [] {
      SkippedNone(mem, read[1..]);
      assert forall c :: c in read <==> c == read[0] || c in read[1..];
    }
  }

  /** Do all pieces lie inside the PDU? */
  predicate PiecesInside(c: Cursor, length: nat) {
    c.pData + Total(c.recorded) <= length
  }

  /**
    When the pieces lie inside the PDU.  If the last subheader is that of an SDU, exactly when the
    unknown subheaders are no more than the bytes without an entry, and so always without unknown
    channels; else the code does not compare header and payload with the length, and they do exactly
    when the bytes read and the lengths recorded happen to fit.
   */
  lemma WhenPiecesInside(mem: seq<byte>, length: nat)
    requires Parse(mem, Start(length)).Some?
    ensures var d, read := Parse(mem, Start(length)).value, Subheaders(mem, Start(length));
            && (IsSdu(LcId(mem, Last(read))) ==> (PiecesInside(d, length) <==> Skipped(mem, read) <= Unlisted(mem, read)))
            && (PiecesInside(d, length) <==>
                  d.dataPtrPos + Skipped(mem, read) <= d.remaining + Unlisted(mem, read) + EndPadding(mem, Last(read)))
  {
    ParseAccounts(mem, Start(length));
    var last := Last(Subheaders(mem, Start(length)));
    if IsSdu(LcId(mem, last)) { LastSdu(mem, last); }
  }

  lemma LastSdu(mem: seq<byte>, c: Cursor)
    requires Step(mem, c).Some? && !Step(mem, c).value.more && IsSdu(LcId(mem, c))
    ensures Step(mem, c).value.remaining == Step(mem, c).value.dataPtrPos && EndPadding(mem, c) == 0
  {
  }

  // ----- Cutting up the payload -----

  datatype Piece = Piece(lcId: nat, bytes: seq<byte>)

  function Slice(mem: seq<byte>, at: nat, length: nat): seq<byte> {
    seq(length, i requires 0 <= i < length => if at + i < |mem| then mem[at + i] else 0)
  }

  function Cut(mem: seq<byte>, at: nat, recorded: seq<DemuxData>): seq<Piece>
    decreases |recorded|
  {
    if recorded == [] then []
    else [Piece(recorded[0].lchId, Slice(mem, at, recorded[0].length))] + Cut(mem, at + recorded[0].length, recorded[1..])
  }

  /** The pieces of a PDU of `length` bytes; None when it is dropped. */
  function Demux(mem: seq<byte>, length: nat): Option<seq<Piece>> {
    if length == 0 then None
    else match Parse(mem, Start(length))
         case None => None
         case Some(c) => Some(Cut(mem, c.pData, c.recorded))
  }

  function CcchOf(pieces: seq<Piece>): seq<seq<byte>> {
    if pieces == [] then []
    else (if pieces[0].lcId == CCCH then [pieces[0].bytes] else []) + CcchOf(pieces[1..])
  }

  /** What goes to the RLC layer: the SDUs of channels 1 to 10. */
  function RlcOf(pieces: seq<Piece>): seq<Piece> {
    if pieces == [] then []
    else (if 1 <= pieces[0].lcId <= 10 then [pieces[0]] else []) + RlcOf(pieces[1..])
  }

  /** Of `pieces`, all but `rest` have been sent on. */
  predicate SentOn(pieces: seq<Piece>, ccch: seq<seq<byte>>, rlcData: seq<Piece>, rest: seq<Piece>) {
    CcchOf(pieces) == ccch + CcchOf(rest) && RlcOf(pieces) == rlcData + RlcOf(rest)
  }

  lemma SendNext(pieces: seq<Piece>, ccch: seq<seq<byte>>, rlcData: seq<Piece>, rest: seq<Piece>)
    requires SentOn(pieces, ccch, rlcData, rest) && rest != []
    ensures var p := rest[0];
            SentOn(pieces, if p.lcId == CCCH then ccch + [p.bytes] else ccch,
                   if 1 <= p.lcId <= 10 then rlcData + [p] else rlcData, rest[1..])
  {
    assert ccch + ([rest[0].bytes] + CcchOf(rest[1..])) == ccch + [rest[0].bytes] + CcchOf(rest[1..]);
    assert rlcData + ([rest[0]] + RlcOf(rest[1..])) == rlcData + [rest[0]] + RlcOf(rest[1..]);
  }

  lemma SendBegins(pieces: seq<Piece>)
    ensures SentOn(pieces, [], [], pieces)
  {
  }

  lemma SendEnds(mem: seq<byte>, at: nat, pieces: seq<Piece>, ccch: seq<seq<byte>>, rlcData: seq<Piece>)
    requires SentOn(pieces, ccch, rlcData, Cut(mem, at, []))
    ensures ccch == CcchOf(pieces) && rlcData == RlcOf(pieces)
  {
  }

  lemma CutNext(mem: seq<byte>, at: nat, recorded: seq<DemuxData>)
    requires recorded != []
    ensures var pieces, next := Cut(mem, at, recorded), recorded[0];
            && pieces != [] && pieces[0] == Piece(next.lchId, Slice(mem, at, next.length))
            && pieces[1..] == Cut(mem, at + next.length, recorded[1..])
  {
  }

  // ----- The sending side -----

  /** A MAC SDU (with the length format that is used when it is not last), or one of five control elements. */
  datatype Item =
    | Sdu(channel: nat, sdu: seq<byte>, wide: bool)
    | PowerHeadroom(level: byte)
    | CRnti(high: byte, low: byte)
    | TruncatedBsr(size: byte)
    | ShortBsr(size: byte)
    | LongBsr(size0: byte, size1: byte, size2: byte)
  {
    function LcId(): nat {
      match this
      case Sdu(channel, _, _) => channel
      case PowerHeadroom(_) => 26
      case CRnti(_, _) => 27
      case TruncatedBsr(_) => 28
      case ShortBsr(_) => 29
      case LongBsr(_, _, _) => 30
    }

    function Data(): seq<byte> {
      match this
      case Sdu(_, sdu, _) => sdu
      case PowerHeadroom(level) => [level]
      case CRnti(high, low) => [high, low]
      case TruncatedBsr(size) => [size]
      case ShortBsr(size) => [size]
      case LongBsr(size0, size1, size2) => [size0, size1, size2]
    }
  }

  predicate ItemOk(it: Item) {
    it.Sdu? ==> it.channel <= 10 && 1 <= |it.sdu| < 32768 && (it.wide || |it.sdu| < 128) && (it.channel == 0 ==> |it.sdu| <= 100)
  }

  /** Padding subheaders in front, or a padding subheader at the end and padding after the payload. */
  datatype Padding = Leading(count: nat) | Trailing(bytes: seq<byte>)

  /** A subheader that is not the last. */
  function Subheader(it: Item): seq<byte>
    requires ItemOk(it)
  {
    if !it.Sdu? then [32 + it.LcId()]
    else if it.wide then [32 + it.LcId(), 128 + |it.Data()| / 256, |it.Data()| % 256]
    else [32 + it.LcId(), |it.Data()|]
  }

  predicate AllOk(items: seq<Item>) {
    forall i :: 0 <= i < |items| ==> ItemOk(items[i])
  }

  function Headers(items: seq<Item>): seq<byte>
    requires AllOk(items)
  {
    if items == [] then [] else Subheader(items[0]) + Headers(items[1..])
  }

  function Payload(items: seq<Item>): seq<byte> {
    if items == [] then [] else items[0].Data() + Payload(items[1..])
  }

  function Fill(count: nat): (r: seq<byte>)
    ensures |r| == count
  {
    seq(count, _ => 32 + PADDING)
  }

  predicate PduOk(items: seq<Item>, padding: Padding) {
    AllOk(items) && |items| <= MAX_NUM_CHANNELS && (padding.Leading? ==> items != [])
  }

  function Header(items: seq<Item>, padding: Padding): seq<byte>
    requires PduOk(items, padding)
  {
    match padding
    case Leading(count) => Fill(count) + Headers(items[..|items| - 1]) + [items[|items| - 1].LcId()]
    case Trailing(_) => Headers(items) + [PADDING]
  }

  function Encode(items: seq<Item>, padding: Padding): seq<byte>
    requires PduOk(items, padding)
  {
    Header(items, padding) + Payload(items) + (if padding.Trailing? then padding.bytes else [])
  }

  function Recorded(items: seq<Item>): seq<DemuxData> {
    seq(|items|, i requires 0 <= i < |items| => DemuxData(items[i].LcId(), |items[i].Data()|))
  }

  function Pieces(items: seq<Item>): seq<Piece> {
    seq(|items|, i requires 0 <= i < |items| => Piece(items[i].LcId(), items[i].Data()))
  }

  // ----- Demultiplexing undoes encoding -----

  lemma ByteAt(mem: seq<byte>, at: nat, part: seq<byte>, i: nat)
    requires Stands(mem, at, part) && i < |part|
    ensures At(mem, at + i) == part[i]
  {
    assert mem[at..at + |part|][i] == mem[at + i];
  }

  function After(c: Cursor, it: Item): Cursor
    requires ItemOk(it) && |it.Data()| <= c.remaining
  {
    Cursor(c.pData + |Subheader(it)|, c.dataPtrPos + |Subheader(it)|, c.remaining - |it.Data()|,
           Record(c.recorded, it.LcId(), |it.Data()|), true)
  }

  lemma WideLength(n: nat)
    requires n < 32768
    ensures (128 + n / 256) % 128 * 256 + n % 256 == n && 128 + n / 256 < 256
  {
  }

  lemma LcIdAndE(lcId: nat)
    requires lcId < 32
    ensures (32 + lcId) % 32 == lcId && (32 + lcId) / 32 % 2 == 1 && lcId % 32 == lcId && lcId / 32 % 2 == 0
  {
  }

  lemma ItemStep(mem: seq<byte>, c: Cursor, it: Item)
    requires ItemOk(it) && |it.Data()| <= c.remaining && Stands(mem, c.pData, Subheader(it))
    ensures Step(mem, c) == Some(After(c, it))
  {
    var h := Subheader(it);
    ByteAt(mem, c.pData, h, 0);
    LcIdAndE(it.LcId());
    if it.Sdu? {
      ByteAt(mem, c.pData, h, 1);
      if it.wide {
        ByteAt(mem, c.pData, h, 2);
        WideLength(|it.Data()|);
      }
    }
  }

  lemma ParseGoesOn(mem: seq<byte>, c: Cursor, d: Cursor)
    requires c.more && Step(mem, c) == Some(d) && d.more
    ensures Parse(mem, c) == Parse(mem, d)
  {
    hide Step;
  }

  lemma RecordedCons(before: seq<DemuxData>, items: seq<Item>)
    ensures items == [] ==> before + Recorded(items) == before
    ensures items != [] ==>
              before + [DemuxData(items[0].LcId(), |items[0].Data()|)] + Recorded(items[1..]) == before + Recorded(items)
  {
    hide Item.LcId, Item.Data;
    if items != [] {
      assert [DemuxData(items[0].LcId(), |items[0].Data()|)] + Recorded(items[1..]) == Recorded(items);
    }
  }

  lemma {:induction false} ItemSteps(mem: seq<byte>, c: Cursor, items: seq<Item>)
    requires AllOk(items) && |Payload(items)| <= c.remaining && Stands(mem, c.pData, Headers(items))
    requires c.more && |c.recorded| + |items| <= MAX_NUM_CHANNELS
    ensures Parse(mem, c) == Parse(mem, Cursor(c.pData + |Headers(items)|, c.dataPtrPos + |Headers(items)|,
                                               c.remaining - |Payload(items)|, c.recorded + Recorded(items), true))
    decreases |items|
  {
    hide Step, Stands, Parse, Recorded, Item.LcId, Item.Data, Subheader;
    RecordedCons(c.recorded, items);
    if items != [] {
      StandsSplit(mem, c.pData, Subheader(items[0]), Headers(items[1..]));
      ItemStep(mem, c, items[0]);
      ParseGoesOn(mem, c, After(c, items[0]));
      ItemSteps(mem, After(c, items[0]), items[1..]);
    }
  }

  lemma PaddingStep(mem: seq<byte>, c: Cursor)
    requires c.more && Stands(mem, c.pData, [32 + PADDING])
    ensures Step(mem, c) == Some(c.(pData := c.pData + 1, dataPtrPos := c.dataPtrPos + 1))
  {
    ByteAt(mem, c.pData, [32 + PADDING], 0);
    LcIdAndE(PADDING);
  }

  lemma {:induction false} FillSteps(mem: seq<byte>, c: Cursor, count: nat)
    requires c.more && Stands(mem, c.pData, Fill(count))
    ensures Parse(mem, c) == Parse(mem, c.(pData := c.pData + count, dataPtrPos := c.dataPtrPos + count))
    decreases count
  {
    hide Step, Stands;
    if count > 0 {
      assert Fill(count) == [32 + PADDING] + Fill(count - 1);
      StandsSplit(mem, c.pData, [32 + PADDING], Fill(count - 1));
      PaddingStep(mem, c);
      FillSteps(mem, c.(pData := c.pData + 1, dataPtrPos := c.dataPtrPos + 1), count - 1);
    }
  }

  lemma PaddingEnds(mem: seq<byte>, c: Cursor)
    requires Stands(mem, c.pData, [PADDING]) && c.dataPtrPos + 1 <= c.remaining
    ensures exists d :: Parse(mem, c) == Some(d) && d.pData == c.pData + 1 && d.recorded == c.recorded
  {
    ByteAt(mem, c.pData, [PADDING], 0);
    LcIdAndE(PADDING);
    assert Parse(mem, c) == Step(mem, c);
  }

  lemma LastEnds(mem: seq<byte>, c: Cursor, it: Item)
    requires ItemOk(it) && Stands(mem, c.pData, [it.LcId()]) && c.remaining == c.dataPtrPos + 1 + |it.Data()|
    requires |c.recorded| < MAX_NUM_CHANNELS
    ensures exists d :: Parse(mem, c) == Some(d) && d.pData == c.pData + 1
                        && d.recorded == c.recorded + [DemuxData(it.LcId(), |it.Data()|)]
  {
    ByteAt(mem, c.pData, [it.LcId()], 0);
    LcIdAndE(it.LcId());
    assert Parse(mem, c) == Step(mem, c);
  }

  lemma {:induction false} CutInverts(mem: seq<byte>, at: nat, items: seq<Item>)
    requires Stands(mem, at, Payload(items))
    ensures Cut(mem, at, Recorded(items)) == Pieces(items)
    decreases |items|
  {
    hide Item.LcId, Item.Data, Cut, Recorded, Pieces, Slice;
    ListsUnfold(items);
    if items == [] {
      CutNone(mem, at);
    } else {
      var data := items[0].Data();
      StandsSplit(mem, at, data, Payload(items[1..]));
      SliceIs(mem, at, data);
      CutInverts(mem, at + |data|, items[1..]);
      CutNext(mem, at, Recorded(items));
    }
  }

  lemma ListsUnfold(items: seq<Item>)
    ensures items == [] ==> Recorded(items) == [] && Pieces(items) == []
    ensures items != [] ==>
              && Recorded(items) != [] && Recorded(items)[0] == DemuxData(items[0].LcId(), |items[0].Data()|)
              && Recorded(items)[1..] == Recorded(items[1..])
              && Pieces(items) == [Piece(items[0].LcId(), items[0].Data())] + Pieces(items[1..])
  {
    hide Item.LcId, Item.Data;
  }

  lemma CutNone(mem: seq<byte>, at: nat)
    ensures Cut(mem, at, []) == []
  {
  }

  lemma SliceIs(mem: seq<byte>, at: nat, data: seq<byte>)
    requires Stands(mem, at, data)
    ensures Slice(mem, at, |data|) == data
  {
    assert Slice(mem, at, |data|) == mem[at..at + |data|];
  }

  lemma {:induction false} PayloadSplit(items: seq<Item>)
    requires items != []
    ensures Payload(items) == Payload(items[..|items| - 1]) + items[|items| - 1].Data()
  {
    hide Item.LcId, Item.Data, Payload;
    PayloadUnfolds(items);
    PayloadUnfolds(items[..|items| - 1]);
    if |items| > 1 {
      PayloadSplit(items[1..]);
      assert items[1..][..|items| - 2] == items[..|items| - 1][1..];
    } else {
      PayloadUnfolds(items[1..]);
    }
  }

  lemma PayloadUnfolds(items: seq<Item>)
    ensures Payload(items) == if items == [] then [] else items[0].Data() + Payload(items[1..])
  {
  }

  /** The subheaders were read and the payload starts at `at`. */
  ghost predicate ReadUpTo(r: Option<Cursor>, at: nat, items: seq<Item>) {
    r.Some? && r.value.pData == at && r.value.recorded == Recorded(items)
  }

  lemma TrailingRead(mem: seq<byte>, items: seq<Item>, bytes: seq<byte>)
    requires PduOk(items, Trailing(bytes)) && Stands(mem, 0, Header(items, Trailing(bytes)))
    ensures ReadUpTo(Parse(mem, Start(|Encode(items, Trailing(bytes))|)), |Headers(items)| + 1, items)
  {
    hide Stands, Parse, Step;
    var c, h := Start(|Encode(items, Trailing(bytes))|), Headers(items);
    StandsSplit(mem, 0, h, [PADDING]);
    ItemSteps(mem, c, items);
    assert [] + Recorded(items) == Recorded(items);
    PaddingEnds(mem, Cursor(|h|, |h|, c.remaining - |Payload(items)|, Recorded(items), true));
  }

  lemma FrontRead(mem: seq<byte>, length: nat, front: seq<Item>, count: nat)
    requires AllOk(front) && |front| <= MAX_NUM_CHANNELS && |Payload(front)| <= length
    requires Stands(mem, 0, Fill(count) + Headers(front))
    ensures var p := count + |Headers(front)|;
            Parse(mem, Start(length)) == Parse(mem, Cursor(p, p, length - |Payload(front)|, Recorded(front), true))
  {
    hide Stands, Parse, Step;
    StandsSplit(mem, 0, Fill(count), Headers(front));
    FillSteps(mem, Start(length), count);
    ItemSteps(mem, Cursor(count, count, length, [], true), front);
    assert [] + Recorded(front) == Recorded(front);
  }

  lemma LeadingRead(mem: seq<byte>, front: seq<Item>, last: Item, count: nat)
    requires AllOk(front) && ItemOk(last) && |front| < MAX_NUM_CHANNELS
    requires Stands(mem, 0, Fill(count) + Headers(front) + [last.LcId()])
    ensures var p := count + |Headers(front)| + 1;
            ReadUpTo(Parse(mem, Start(p + |Payload(front)| + |last.Data()|)), p, front + [last])
  {
    hide Stands, Parse, Step;
    var p := count + |Headers(front)|;
    var length := p + 1 + |Payload(front)| + |last.Data()|;
    StandsSplit(mem, 0, Fill(count) + Headers(front), [last.LcId()]);
    FrontRead(mem, length, front, count);
    RecordedSnoc(front, last);
    LastEnds(mem, Cursor(p, p, length - |Payload(front)|, Recorded(front), true), last);
  }

  lemma RecordedSnoc(front: seq<Item>, last: Item)
    ensures Recorded(front + [last]) == Recorded(front) + [DemuxData(last.LcId(), |last.Data()|)]
  {
  }

  lemma HeaderRead(mem: seq<byte>, items: seq<Item>, padding: Padding)
    requires PduOk(items, padding) && Stands(mem, 0, Header(items, padding))
    ensures ReadUpTo(Parse(mem, Start(|Encode(items, padding)|)), |Header(items, padding)|, items)
  {
    hide Stands, Parse, Step, Payload, Headers, Recorded, Fill, ReadUpTo, Start;
    match padding
    case Trailing(bytes) => TrailingRead(mem, items, bytes);
    case Leading(count) =>
      var front, last := items[..|items| - 1], items[|items| - 1];
      assert front + [last] == items;
      PayloadSplit(items);
      LeadingRead(mem, front, last, count);
  }

  /**
    For every well-formed PDU, whatever follows it in memory, the demultiplexer yields exactly the
    encoded SDUs and control elements, in order.
   */
  lemma DemuxInvertsEncode(items: seq<Item>, padding: Padding, after: seq<byte>)
    requires PduOk(items, padding)
    ensures Demux(Encode(items, padding) + after, |Encode(items, padding)|) == Some(Pieces(items))
  {
    hide Stands, PduOk, Header, Payload, Cut;
    var mem, h := Encode(items, padding) + after, Header(items, padding);
    EncodedStands(items, padding, after);
    HeaderNotEmpty(items, padding);
    HeaderRead(mem, items, padding);
    CutInverts(mem, |h|, items);
  }

  lemma HeaderNotEmpty(items: seq<Item>, padding: Padding)
    requires PduOk(items, padding)
    ensures Header(items, padding) != []
  {
  }

  /** Header and payload stand one behind the other. */
  lemma EncodedStands(items: seq<Item>, padding: Padding, after: seq<byte>)
    requires PduOk(items, padding)
    ensures var mem, h := Encode(items, padding) + after, Header(items, padding);
            Stands(mem, 0, h) && Stands(mem, |h|, Payload(items))
  {
    hide PduOk, Header, Payload;
    var h, data, rest := Header(items, padding), Payload(items), if padding.Trailing? then padding.bytes else [];
    var mem := Encode(items, padding) + after;
    assert mem[0..|h + (data + rest)|] == h + (data + rest);
    StandsSplit(mem, 0, h, data + rest);
    StandsSplit(mem, |h|, data, rest);
  }

  /** Pieces outside their PDU: by an unknown subheader, by padding at the end, and by a control element. */
  lemma PiecesOutside()
    ensures Demux([43, 1, 7, 99], 3) == Some([Piece(1, [7, 99])])
    ensures Demux([33, 2, 31, 7, 99], 4) == Some([Piece(1, [7, 99])])
    ensures Demux([26, 99], 1) == Some([Piece(26, [99])])
  {
    OutsideByUnknown();
    OutsideByPadding();
    OutsideByCe();
  }

  lemma OutsideByUnknown()
    ensures Demux([43, 1, 7, 99], 3) == Some([Piece(1, [7, 99])])
  {
    var a: seq<byte>, c := [43, 1, 7, 99], Cursor(1, 0, 3, [], true);
    assert [] + [DemuxData(1, 2)] == [DemuxData(1, 2)];
    assert Step(a, Start(3)) == Some(c) && Step(a, c) == Some(Cursor(2, 1, 1, [DemuxData(1, 2)], false));
    hide Step, Cut;
    CutOne(a, 2, 1, 2);
    assert Slice(a, 2, 2) == [7, 99];
  }

  lemma OutsideByPadding()
    ensures Demux([33, 2, 31, 7, 99], 4) == Some([Piece(1, [7, 99])])
  {
    var b: seq<byte>, c := [33, 2, 31, 7, 99], Cursor(2, 2, 2, [DemuxData(1, 2)], true);
    assert [] + [DemuxData(1, 2)] == [DemuxData(1, 2)];
    assert Step(b, Start(4)) == Some(c) && Step(b, c) == Some(Cursor(3, 3, 1, [DemuxData(1, 2)], false));
    hide Step, Cut;
    CutOne(b, 3, 1, 2);
    assert Slice(b, 3, 2) == [7, 99];
  }

  lemma OutsideByCe()
    ensures Demux([26, 99], 1) == Some([Piece(26, [99])])
  {
    var a: seq<byte> := [26, 99];
    assert [] + [DemuxData(26, 1)] == [DemuxData(26, 1)];
    assert Step(a, Start(1)) == Some(Cursor(1, 1, 0, [DemuxData(26, 1)], false));
    hide Step, Cut;
    CutOne(a, 1, 26, 1);
    assert Slice(a, 1, 1) == [99];
  }

  lemma {:induction false} TotalFirst(recorded: seq<DemuxData>)
    requires recorded != []
    ensures Total(recorded) == recorded[0].length + Total(recorded[1..])
    decreases |recorded|
  {
    var n := |recorded| - 1;
    if n > 0 {
      TotalFirst(recorded[..n]);
      assert recorded[..n][1..] == recorded[1..][..n - 1];
    } else {
      assert recorded[1..] == [] && recorded[..0] == [];
    }
  }

  /** Pieces inside the PDU are made of its bytes alone. */
  lemma {:induction false} InsideIsOwn(pdu: seq<byte>, after: seq<byte>, at: nat, recorded: seq<DemuxData>)
    requires at + Total(recorded) <= |pdu|
    ensures Cut(pdu + after, at, recorded) == Cut(pdu, at, recorded)
    decreases |recorded|
  {
    if recorded != [] {
      TotalFirst(recorded);
      InsideIsOwn(pdu, after, at + recorded[0].length, recorded[1..]);
      assert Slice(pdu + after, at, recorded[0].length) == Slice(pdu, at, recorded[0].length);
    }
  }

  lemma CutOne(mem: seq<byte>, at: nat, lchId: nat, length: nat)
    ensures Cut(mem, at, [DemuxData(lchId, length)]) == [Piece(lchId, Slice(mem, at, length))]
  {
    assert [DemuxData(lchId, length)][1..] == [];
  }

  // ----- The decoder -----

  /** The variables of MacProcessUlSchPdu; `demuxData` is filled from the front. */
  class UlSchDecoder {
    const mem: seq<byte>
    const demuxData: array<DemuxData>
    var pData: nat
    var dataPtrPos: nat
    var remainingPayloadLength: nat
    var pos: nat
    var extnFlag: bool
    var successDecodeFlag: bool

    constructor (mem: seq<byte>, length: nat)
      ensures Valid() && Now() == Start(length) && successDecodeFlag
      ensures this.mem == mem && fresh(demuxData)
    {
      this.mem := mem;
      demuxData := new DemuxData[MAX_NUM_CHANNELS](_ => DemuxData(0, 0));
      pData, dataPtrPos, remainingPayloadLength, pos := 0, 0, length, 0;
      extnFlag, successDecodeFlag := true, true;
    }

    ghost predicate Valid()
      reads this
    {
      demuxData.Length == MAX_NUM_CHANNELS && pos <= MAX_NUM_CHANNELS
    }

    ghost function Now(): Cursor
      reads this, demuxData
      requires Valid()
    {
      Cursor(pData, dataPtrPos, remainingPayloadLength, demuxData[..pos], extnFlag)
    }

    /** The loop variables are those of `r`, but that the current byte is still to be left behind. */
    ghost predicate Reached(r: Option<Cursor>)
      reads this, demuxData
      requires Valid()
    {
      successDecodeFlag == r.Some? && (r.Some? ==> Now().(pData := pData + 1) == r.value)
    }

    method RecordEntry(lchId: nat, length: nat)
      requires Valid()
      modifies this`pos, demuxData
      ensures Valid() && demuxData[..pos] == Record(old(demuxData[..pos]), lchId, length)
    {
      if pos < MAX_NUM_CHANNELS {
        demuxData[pos] := DemuxData(lchId, length);
        pos := pos + 1;
      }
    }

    /** MacCalculateSubHeaderLength */
    method MacCalculateSubHeaderLength() returns (length: nat)
      requires Valid()
      modifies this`pData, this`dataPtrPos
      ensures var wide := At(mem, old(pData)) >= 128;
              && length == (if wide then At(mem, old(pData)) % 128 * 256 + At(mem, old(pData) + 1) else At(mem, old(pData)))
              && pData == old(pData) + (if wide then 1 else 0) && dataPtrPos == old(dataPtrPos) + (if wide then 3 else 2)
    {
      if At(mem, pData) >= 128 {
        length := At(mem, pData) % 128;
        pData := pData + 1;
        length := length * 256 + At(mem, pData);
        dataPtrPos := dataPtrPos + 3;
      } else {
        length := At(mem, pData);
        dataPtrPos := dataPtrPos + 2;
      }
    }

    /** MacProcessUlCcchLch and MacProcessMacLcId, which differ in the limit of 100 bytes only. */
    method MacProcessSdu(lcId: nat)
      requires Valid() && successDecodeFlag && IsSdu(lcId)
      modifies this, demuxData
      ensures Valid() && Reached(old(StepSdu(mem, Now(), lcId, extnFlag))) && extnFlag == old(extnFlag)
    {
      var localLength := 0;
      if !extnFlag {
        dataPtrPos := dataPtrPos + 1;
        if remainingPayloadLength <= dataPtrPos {
          successDecodeFlag := false;
          return;
        }
        localLength := remainingPayloadLength - dataPtrPos;
      } else {
        pData := pData + 1;
        localLength := MacCalculateSubHeaderLength();
      }
      if localLength == 0 || remainingPayloadLength < localLength || (lcId == CCCH && localLength > 100) {
        successDecodeFlag := false;
        return;
      }
      RecordEntry(lcId, localLength);
      remainingPayloadLength := remainingPayloadLength - localLength;
    }

    /** The five control elements: power headroom, C-RNTI, and truncated, short and long BSR. */
    method MacProcessCe(lcId: nat)
      requires Valid() && successDecodeFlag && IsCe(lcId)
      modifies this, demuxData
      ensures Valid() && Reached(old(StepCe(Now(), lcId, extnFlag))) && extnFlag == old(extnFlag)
    {
      if remainingPayloadLength < CeLength(lcId) {
        successDecodeFlag := false;
        return;
      }
      RecordEntry(lcId, CeLength(lcId));
      remainingPayloadLength := remainingPayloadLength - CeLength(lcId);
      dataPtrPos := dataPtrPos + 1;
    }

    /** MacProcessPaddingLch */
    method MacProcessPaddingLch()
      requires Valid() && successDecodeFlag
      modifies this, demuxData
      ensures Valid() && Reached(old(StepPadding(Now(), extnFlag))) && extnFlag == old(extnFlag)
    {
      dataPtrPos := dataPtrPos + 1;
      if !extnFlag {
        var localLength := if remainingPayloadLength > dataPtrPos then remainingPayloadLength - dataPtrPos
                           else dataPtrPos - remainingPayloadLength;
        if remainingPayloadLength < localLength {
          successDecodeFlag := false;
          return;
        }
        remainingPayloadLength := remainingPayloadLength - localLength;
        if pos < MAX_NUM_CHANNELS {
          demuxData[pos] := demuxData[pos].(length := 0);
        }
      }
    }

    /** One turn of the loop. */
    method ProcessSubheader()
      requires Valid() && successDecodeFlag
      modifies this, demuxData
      ensures Valid() && successDecodeFlag == old(Step(mem, Now())).Some?
      ensures successDecodeFlag ==> Now() == old(Step(mem, Now())).value
    {
      var lcId := At(mem, pData) % 32;
      extnFlag := At(mem, pData) / 32 % 2 == 1;
      if IsSdu(lcId) {
        MacProcessSdu(lcId);
      } else if IsCe(lcId) {
        MacProcessCe(lcId);
      } else if lcId == PADDING {
        MacProcessPaddingLch();
      }
      pData := pData + 1;
    }

    /** The subheader loop of MacProcessUlSchPdu. */
    method ProcessSubheaders()
      requires Valid() && successDecodeFlag
      modifies this, demuxData
      ensures Valid() && successDecodeFlag == old(Parse(mem, Now())).Some?
      ensures successDecodeFlag ==> Now() == old(Parse(mem, Now())).value
    {
      ghost var goal := Parse(mem, Now());
      ProcessSubheader();
      while extnFlag && successDecodeFlag
        invariant Valid()
        invariant if !successDecodeFlag then goal == None
                  else if extnFlag then Parse(mem, Now()) == goal
                  else goal == Some(Now())
        decreases successDecodeFlag, if pData < |mem| then |mem| - pData else 0, extnFlag
      {
        StepAdvances(mem, Now());
        ProcessSubheader();
      }
    }

    /** MacDeMultiplexAndSend: the CCCH messages and the packets for RLC, each with its bytes. */
    method MacDeMultiplexAndSend() returns (ccch: seq<seq<byte>>, rlcData: seq<Piece>)
      requires Valid()
      ensures var pieces := Cut(mem, pData, demuxData[..pos]);
              ccch == CcchOf(pieces) && rlcData == RlcOf(pieces)
    {
      hide Cut, SentOn;
      ccch, rlcData := [], [];
      var dataPtr: nat := pData;
      ghost var pieces := Cut(mem, pData, demuxData[..pos]);
      assert SentOn(pieces, [], [], pieces) by { SendBegins(pieces); }
      for idx := 0 to pos
        invariant SentOn(pieces, ccch, rlcData, Cut(mem, dataPtr, demuxData[idx..pos]))
      {
        var entry := demuxData[idx];
        assert demuxData[idx..pos][0] == entry && demuxData[idx..pos][1..] == demuxData[idx + 1..pos];
        CutNext(mem, dataPtr, demuxData[idx..pos]);
        SendNext(pieces, ccch, rlcData, Cut(mem, dataPtr, demuxData[idx..pos]));
        if entry.lchId == CCCH {
          ccch := ccch + [Slice(mem, dataPtr, entry.length)];
        } else if entry.lchId <= 10 {
          rlcData := rlcData + [Piece(entry.lchId, Slice(mem, dataPtr, entry.length))];
        }
        dataPtr := dataPtr + entry.length;
      }
      assert demuxData[pos..pos] == [];
      SendEnds(mem, dataPtr, pieces, ccch, rlcData);
    }
  }

  /** MacProcessUlSchPdu */
  method MacProcessUlSchPdu(mem: seq<byte>, length: nat) returns (ok: bool, ccch: seq<seq<byte>>, rlcData: seq<Piece>)
    ensures ok == Demux(mem, length).Some?
    ensures ok ==> ccch == CcchOf(Demux(mem, length).value) && rlcData == RlcOf(Demux(mem, length).value)
    ensures !ok ==> ccch == [] && rlcData == []
  {
    ok, ccch, rlcData := false, [], [];
    if length == 0 {
      return;
    }
    var decoder := new UlSchDecoder(mem, length);
    decoder.ProcessSubheaders();
    ok := decoder.successDecodeFlag;
    if ok {
      ccch, rlcData := decoder.MacDeMultiplexAndSend();
    }
  }
}
