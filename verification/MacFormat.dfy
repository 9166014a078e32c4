/**
  Which octets are a MAC PDU for the demultiplexer, and which pieces they hold: its subheaders, the
  payload each of them claims, and where the claims must fit (section 6.1.2 of 3GPP TS 36.321, and what
  the code makes of PDUs beyond it).
 */
module MacFormat {
  import opened Bytes
  import opened MacDemux

  /** A subheader with the extension bit, so that another one follows. */
  datatype Sub = SduSub(channel: nat, length: nat, wide: bool) | CeSub(channel: nat) | PadSub | UnknownSub(channel: nat)

  /** The subheader without it. */
  datatype End = EndSdu(channel: nat) | EndCe(channel: nat) | EndPad | EndUnknown(channel: nat)

  /** C-RNTI has two octets, a long buffer status report three, any other control element one. */
  function CeSize(channel: nat): nat {
    if channel == 27 then 2 else if channel == 30 then 3 else 1
  }

  // ----- On the octets -----

  /** The two reserved bits of a subheader may be anything. */
  predicate SubAt(mem: seq<byte>, p: nat, s: Sub) {
    match s
    case SduSub(channel, length, wide) =>
      && channel <= 10 && At(mem, p) % 64 == 32 + channel
      && if wide then At(mem, p + 1) >= 128 && length == (At(mem, p + 1) - 128) * 256 + At(mem, p + 2)
         else At(mem, p + 1) < 128 && length == At(mem, p + 1)
    case CeSub(channel) => 26 <= channel <= 30 && At(mem, p) % 64 == 32 + channel
    case PadSub => At(mem, p) % 64 == 63
    case UnknownSub(channel) => 11 <= channel <= 25 && At(mem, p) % 64 == 32 + channel
  }

  predicate EndAt(mem: seq<byte>, p: nat, e: End) {
    match e
    case EndSdu(channel) => channel <= 10 && At(mem, p) % 64 == channel
    case EndCe(channel) => 26 <= channel <= 30 && At(mem, p) % 64 == channel
    case EndPad => At(mem, p) % 64 == 31
    case EndUnknown(channel) => 11 <= channel <= 25 && At(mem, p) % 64 == channel
  }

  function Size(s: Sub): nat {
    if s.SduSub? then (if s.wide then 3 else 2) else 1
  }

  /** The octets counted as header. */
  function Counted(s: Sub): nat {
    if s.UnknownSub? then 0 else Size(s)
  }

  function Claims(s: Sub): nat {
    match s
    case SduSub(_, length, _) => length
    case CeSub(channel) => CeSize(channel)
    case _ => 0
  }

  function Entry(s: Sub): seq<DemuxData> {
    if s.SduSub? || s.CeSub? then [DemuxData(s.channel, Claims(s))] else []
  }

  predicate SubOk(s: Sub) {
    s.SduSub? ==> s.length > 0 && (s.channel == 0 ==> s.length <= 100)
  }

  predicate SubsAt(mem: seq<byte>, p: nat, subs: seq<Sub>)
    decreases |subs|
  {
    subs != [] ==> SubAt(mem, p, subs[0]) && SubOk(subs[0]) && SubsAt(mem, p + Size(subs[0]), subs[1..])
  }

  function Sizes(subs: seq<Sub>): nat {
    if subs == [] then 0 else Size(subs[0]) + Sizes(subs[1..])
  }

  function CountedIn(subs: seq<Sub>): nat {
    if subs == [] then 0 else Counted(subs[0]) + CountedIn(subs[1..])
  }

  function ClaimsOf(subs: seq<Sub>): nat {
    if subs == [] then 0 else Claims(subs[0]) + ClaimsOf(subs[1..])
  }

  function Entries(subs: seq<Sub>): seq<DemuxData> {
    if subs == [] then [] else Entry(subs[0]) + Entries(subs[1..])
  }

  // ----- A PDU -----

  /** What the last subheader needs of the `rest` of the length, behind `header` octets with its own. */
  predicate EndOk(e: End, rest: nat, header: nat) {
    match e
    case EndSdu(channel) => rest > header && (channel == 0 ==> rest - header <= 100)
    case EndCe(channel) => CeSize(channel) <= rest
    case EndPad => header <= 2 * rest
    case EndUnknown(_) => true
  }

  function EndEntry(e: End, rest: nat, header: nat): seq<DemuxData> {
    match e
    case EndSdu(channel) => [DemuxData(channel, if rest > header then rest - header else 0)]
    case EndCe(channel) => [DemuxData(channel, CeSize(channel))]
    case _ => []
  }

  function HeaderCount(subs: seq<Sub>, e: End): nat {
    CountedIn(subs) + if e.EndUnknown? then 0 else 1
  }

  predicate IsPdu(mem: seq<byte>, length: nat, subs: seq<Sub>, e: End) {
    && length > 0 && SubsAt(mem, 0, subs) && EndAt(mem, Sizes(subs), e)
    && ClaimsOf(subs) <= length && EndOk(e, length - ClaimsOf(subs), HeaderCount(subs, e))
  }

  /** Later entries than the seventeenth are lost. */
  function First17(entries: seq<DemuxData>): seq<DemuxData> {
    if |entries| <= 17 then entries else entries[..17]
  }

  /** The pieces: behind the subheaders, one after the other. */
  function PiecesOf(mem: seq<byte>, length: nat, subs: seq<Sub>, e: End): seq<Piece>
    requires IsPdu(mem, length, subs, e)
  {
    Cut(mem, Sizes(subs) + 1, First17(Entries(subs) + EndEntry(e, length - ClaimsOf(subs), HeaderCount(subs, e))))
  }

  // ----- One subheader -----

  lemma Bits(b: nat)
    ensures b % 64 == (if b / 32 % 2 == 1 then 32 else 0) + b % 32
  {
    var q, r := b / 32, b % 32;
    assert b == 32 * q + r;
    var h := q / 2;
    assert q == 2 * h + q % 2;
    assert b == 64 * h + (32 * (q % 2) + r);
  }

  function Advance(c: Cursor, s: Sub): Cursor
    requires Claims(s) <= c.remaining
  {
    Cursor(c.pData + Size(s), c.dataPtrPos + Counted(s), c.remaining - Claims(s), First17(c.recorded + Entry(s)), true)
  }

  lemma OneMore(recorded: seq<DemuxData>, channel: nat, length: nat)
    requires |recorded| <= 17
    ensures Record(recorded, channel, length) == First17(recorded + [DemuxData(channel, length)])
    ensures First17(recorded + []) == recorded
  {
    assert recorded + [] == recorded;
    if |recorded| == 17 { assert (recorded + [DemuxData(channel, length)])[..17] == recorded; }
  }

  lemma WideOctet(a: nat, b: nat)
    requires 128 <= a < 256
    ensures a % 128 * 256 + b == (a - 128) * 256 + b
  {
  }

  lemma SubSteps(mem: seq<byte>, c: Cursor, s: Sub)
    requires SubAt(mem, c.pData, s) && SubOk(s) && Claims(s) <= c.remaining && |c.recorded| <= 17
    requires c.more
    ensures Step(mem, c) == Some(Advance(c, s))
  {
    hide First17, Record;
    Bits(At(mem, c.pData));
    OneMore(c.recorded, if s.PadSub? then 0 else s.channel, Claims(s));
    if s.SduSub? && s.wide { WideOctet(At(mem, c.pData + 1), At(mem, c.pData + 2)); }
  }

  lemma SubFound(mem: seq<byte>, c: Cursor) returns (s: Sub)
    requires Step(mem, c).Some? && Step(mem, c).value.more && |c.recorded| <= 17
    ensures SubAt(mem, c.pData, s) && SubOk(s) && Claims(s) <= c.remaining && Step(mem, c) == Some(Advance(c, s))
  {
    var b := At(mem, c.pData);
    Bits(b);
    var channel := b % 32;
    if channel <= 10 {
      var first := At(mem, c.pData + 1);
      if first >= 128 { WideOctet(first, At(mem, c.pData + 2)); }
      s := SduSub(channel, if first >= 128 then first % 128 * 256 + At(mem, c.pData + 2) else first, first >= 128);
    } else if 26 <= channel <= 30 {
      s := CeSub(channel);
    } else if channel == 31 {
      s := PadSub;
    } else {
      s := UnknownSub(channel);
    }
    OneMore(c.recorded, channel, Claims(s));
    hide First17, Record;
  }

  /** The cursor behind the last subheader, which claims what is left or what its channel needs. */
  ghost predicate Ends(c: Cursor, e: End, d: Cursor) {
    var header := c.dataPtrPos + if e.EndUnknown? then 0 else 1;
    && d.pData == c.pData + 1 && !d.more && EndOk(e, c.remaining, header)
    && d.recorded == First17(c.recorded + EndEntry(e, c.remaining, header))
  }

  lemma EndSteps(mem: seq<byte>, c: Cursor, e: End)
    requires EndAt(mem, c.pData, e) && |c.recorded| <= 17
    ensures Step(mem, c).Some? <==> EndOk(e, c.remaining, c.dataPtrPos + if e.EndUnknown? then 0 else 1)
    ensures Step(mem, c).Some? ==> Ends(c, e, Step(mem, c).value)
  {
    Bits(At(mem, c.pData));
    OneMore(c.recorded, if e.EndPad? then 0 else e.channel,
            if e.EndSdu? && c.remaining > c.dataPtrPos + 1 then c.remaining - (c.dataPtrPos + 1)
            else if e.EndCe? then CeSize(e.channel) else 0);
    hide First17, Record;
  }

  lemma EndFound(mem: seq<byte>, c: Cursor) returns (e: End)
    requires Step(mem, c).Some? && !Step(mem, c).value.more && |c.recorded| <= 17
    ensures EndAt(mem, c.pData, e) && Ends(c, e, Step(mem, c).value)
  {
    var channel := At(mem, c.pData) % 32;
    Bits(At(mem, c.pData));
    e := if channel <= 10 then EndSdu(channel) else if 26 <= channel <= 30 then EndCe(channel)
         else if channel == 31 then EndPad else EndUnknown(channel);
    assert EndAt(mem, c.pData, e) by { hide Ends; }
    EndSteps(mem, c, e);
  }

  // ----- All subheaders -----

  function AdvanceAll(c: Cursor, subs: seq<Sub>): Cursor
    requires ClaimsOf(subs) <= c.remaining
    decreases |subs|
  {
    if subs == [] then c else AdvanceAll(Advance(c, subs[0]), subs[1..])
  }

  lemma StillFew(c: Cursor, s: Sub)
    requires Claims(s) <= c.remaining
    ensures |Advance(c, s).recorded| <= 17
  {
  }

  lemma {:induction false} Advanced(c: Cursor, subs: seq<Sub>)
    requires ClaimsOf(subs) <= c.remaining && |c.recorded| <= 17 && c.more
    ensures AdvanceAll(c, subs) == Cursor(c.pData + Sizes(subs), c.dataPtrPos + CountedIn(subs), c.remaining - ClaimsOf(subs),
                                          First17(c.recorded + Entries(subs)), true)
    decreases |subs|
  {
    if subs == [] {
      assert c.recorded + [] == c.recorded;
    } else {
      StillFew(c, subs[0]);
      Advanced(Advance(c, subs[0]), subs[1..]);
      FirstOfFirst(c.recorded, Entry(subs[0]), Entries(subs[1..]));
    }
  }

  lemma FirstOfFirst(a: seq<DemuxData>, b: seq<DemuxData>, rest: seq<DemuxData>)
    ensures First17(First17(a + b) + rest) == First17(a + (b + rest))
  {
    assert a + (b + rest) == (a + b) + rest;
  }

  lemma {:induction false} SubsParse(mem: seq<byte>, c: Cursor, subs: seq<Sub>)
    requires SubsAt(mem, c.pData, subs) && ClaimsOf(subs) <= c.remaining && |c.recorded| <= 17 && c.more
    ensures Parse(mem, c) == Parse(mem, AdvanceAll(c, subs))
    decreases |subs|
  {
    if subs != [] {
      hide Step, Parse, SubAt, SubOk, Claims, Size, Entry, Counted;
      StillFew(c, subs[0]);
      SubSteps(mem, c, subs[0]);
      ParseGoesOn(mem, c, Advance(c, subs[0]));
      SubsParse(mem, Advance(c, subs[0]), subs[1..]);
    }
  }

  lemma ParseEnds(mem: seq<byte>, c: Cursor)
    requires Step(mem, c) == None || !Step(mem, c).value.more
    ensures Parse(mem, c) == Step(mem, c)
  {
    hide Step;
  }

  lemma {:induction false} SubsFound(mem: seq<byte>, c: Cursor) returns (subs: seq<Sub>, e: End)
    requires Parse(mem, c).Some? && |c.recorded| <= 17 && c.more
    ensures SubsAt(mem, c.pData, subs) && ClaimsOf(subs) <= c.remaining && EndAt(mem, c.pData + Sizes(subs), e)
    ensures Ends(AdvanceAll(c, subs), e, Parse(mem, c).value)
    decreases if c.pData < |mem| then |mem| - c.pData else 0
  {
    hide Step, SubAt, SubOk, EndAt, Claims, Size, Entry, Counted, Ends;
    StepAdvances(mem, c);
    if Step(mem, c).value.more {
      var s := SubFound(mem, c);
      var rest;
      StillFew(c, s);
      rest, e := SubsFound(mem, Advance(c, s));
      subs := [s] + rest;
      assert subs[1..] == rest;
    } else {
      e := EndFound(mem, c);
      subs := [];
    }
  }

  /**
    For any memory and length: the demultiplexer accepts exactly the PDUs described above, and their
    pieces are those of their subheaders.
   */
  lemma DemuxMeans(mem: seq<byte>, length: nat)
    ensures Demux(mem, length).Some? <==> exists subs, e :: IsPdu(mem, length, subs, e)
    ensures forall subs, e :: IsPdu(mem, length, subs, e) ==> Demux(mem, length) == Some(PiecesOf(mem, length, subs, e))
  {
    hide Demux, IsPdu;
    if Demux(mem, length).Some? {
      var subs, e := PduFound(mem, length);
    }
    forall subs, e | IsPdu(mem, length, subs, e) ensures Demux(mem, length) == Some(PiecesOf(mem, length, subs, e)) {
      PduRead(mem, length, subs, e);
    }
  }

  lemma PduFound(mem: seq<byte>, length: nat) returns (subs: seq<Sub>, e: End)
    requires Demux(mem, length).Some?
    ensures IsPdu(mem, length, subs, e)
  {
    hide Parse, SubsAt, EndAt, Cut;
    subs, e := SubsFound(mem, Start(length));
    Advanced(Start(length), subs);
  }

  lemma PduRead(mem: seq<byte>, length: nat, subs: seq<Sub>, e: End)
    requires IsPdu(mem, length, subs, e)
    ensures Demux(mem, length) == Some(PiecesOf(mem, length, subs, e))
  {
    hide Parse, Step, SubsAt, EndAt, EndOk, EndEntry, Cut;
    var c := AdvanceAll(Start(length), subs);
    Advanced(Start(length), subs);
    Few(Entries(subs));
    SubsParse(mem, Start(length), subs);
    EndSteps(mem, c, e);
    ParseEnds(mem, c);
    FirstOfFirst([], Entries(subs), EndEntry(e, length - ClaimsOf(subs), HeaderCount(subs, e)));
    Nothing(Entries(subs), EndEntry(e, length - ClaimsOf(subs), HeaderCount(subs, e)));
  }

  lemma Few(entries: seq<DemuxData>)
    ensures |First17([] + entries)| <= 17
  {
  }

  lemma Nothing(a: seq<DemuxData>, b: seq<DemuxData>)
    ensures [] + (a + b) == a + b
  {
  }
}
