/**
  From transport blocks to SDUs: the MAC demultiplexer feeds the RLC layer, whose channels do not
  disturb each other (ulp/src/lteMac.c:249-399, 667-843 and ulp/src/lteRlc.c:250-441).
 */
module Uplink {
  import opened Bytes
  import opened RlcReassembly
  import opened RlcCodec
  import opened RlcEndToEnd
  import opened BlockOwners
  import opened RlcLayer
  import RlcStack
  import MacDemux

  /** A packet on its way to the AM entity of `key`, with the measurement of its time. */
  datatype Arrival = Arrival(key: Key, bytes: seq<byte>, mac: Option<Report>)

  /** All packets, in order, with no UE about to be deleted. */
  function Through(states: map<Key, State>, arrivals: seq<Arrival>): RlcStack.Traffic
    decreases |arrivals|
  {
    if arrivals == [] then RlcStack.Traffic(states, [])
    else
      var o := RlcStack.PacketThrough(states, arrivals[0].key, false, arrivals[0].bytes, arrivals[0].mac);
      var r := Through(o.states, arrivals[1..]);
      RlcStack.Traffic(r.states, o.passed + r.passed)
  }

  lemma {:induction false} ThroughSnoc(states: map<Key, State>, arrivals: seq<Arrival>, last: Arrival)
    ensures var before := Through(states, arrivals);
            var o := RlcStack.PacketThrough(before.states, last.key, false, last.bytes, last.mac);
            Through(states, arrivals + [last]) == RlcStack.Traffic(o.states, before.passed + o.passed)
    decreases |arrivals|
  {
    if arrivals == [] {
      assert (arrivals + [last])[1..] == [];
      var o := RlcStack.PacketThrough(states, last.key, false, last.bytes, last.mac);
      assert o.passed + [] == o.passed && [] + o.passed == o.passed;
    } else {
      assert (arrivals + [last])[1..] == arrivals[1..] + [last];
      var o := RlcStack.PacketThrough(states, arrivals[0].key, false, arrivals[0].bytes, arrivals[0].mac);
      ThroughSnoc(o.states, arrivals[1..], last);
      Grouped(o.passed, Through(o.states, arrivals[1..]).passed,
              RlcStack.PacketThrough(Through(o.states, arrivals[1..]).states, last.key, false, last.bytes, last.mac).passed);
    }
  }

  lemma Grouped<T>(a: seq<T>, b: seq<T>, c: seq<T>)
    ensures a + b + c == a + (b + c)
  {
  }

  function ArrivalsOf(rnti: nat, packets: seq<RlcStack.Packet>, mac: Option<Report>): seq<Arrival> {
    seq(|packets|, i requires 0 <= i < |packets| => Arrival(Key(rnti, packets[i].lcId), packets[i].bytes, mac))
  }

  /** What RlcStack proves of one indication, in terms of arrivals. */
  lemma {:induction false} IndicationIsArrivals(states: map<Key, State>, rnti: nat, packets: seq<RlcStack.Packet>, mac: Option<Report>)
    ensures RlcStack.PacketsThrough(states, rnti, false, packets, mac) == Through(states, ArrivalsOf(rnti, packets, mac))
    decreases |packets|
  {
    if packets != [] {
      var front, last := packets[..|packets| - 1], packets[|packets| - 1];
      IndicationIsArrivals(states, rnti, front, mac);
      assert ArrivalsOf(rnti, packets, mac) == ArrivalsOf(rnti, front, mac) + [Arrival(Key(rnti, last.lcId), last.bytes, mac)];
      ThroughSnoc(states, ArrivalsOf(rnti, front, mac), Arrival(Key(rnti, last.lcId), last.bytes, mac));
    }
  }

  // ----- One channel among others -----

  function BytesFor(k: Key, arrivals: seq<Arrival>): seq<seq<byte>>
    decreases |arrivals|
  {
    if arrivals == [] then []
    else (if arrivals[0].key == k then [arrivals[0].bytes] else []) + BytesFor(k, arrivals[1..])
  }

  function MacsFor(k: Key, arrivals: seq<Arrival>): (r: seq<Option<Report>>)
    ensures |r| == |BytesFor(k, arrivals)|
    decreases |arrivals|
  {
    if arrivals == [] then []
    else (if arrivals[0].key == k then [arrivals[0].mac] else []) + MacsFor(k, arrivals[1..])
  }

  /** The SDUs that came out of one channel. */
  function SdusFor(k: Key, passed: seq<RlcStack.Passed>): seq<Sdu>
    decreases |passed|
  {
    if passed == [] then []
    else (if passed[0].key == k then [passed[0].sdu] else []) + SdusFor(k, passed[1..])
  }

  lemma {:induction false} SdusForBoth(k: Key, a: seq<RlcStack.Passed>, b: seq<RlcStack.Passed>)
    ensures SdusFor(k, a + b) == SdusFor(k, a) + SdusFor(k, b)
    decreases |a|
  {
    if a == [] {
      assert a + b == b;
    } else {
      assert (a + b)[1..] == a[1..] + b;
      SdusForBoth(k, a[1..], b);
    }
  }

  lemma {:induction false} SdusForTagged(k: Key, l: Key, sdus: seq<Sdu>)
    ensures SdusFor(k, RlcStack.Tagged(l, sdus)) == if k == l then sdus else []
    decreases |sdus|
  {
    if sdus != [] {
      assert RlcStack.Tagged(l, sdus)[1..] == RlcStack.Tagged(l, sdus[1..]);
      SdusForTagged(k, l, sdus[1..]);
    }
  }

  /** A packet moves its own channel as ReceiveBytes says, and no other. */
  lemma PacketOnChannel(states: map<Key, State>, a: Arrival, k: Key)
    requires k.lcId <= SRB_2_LCID
    ensures var o := RlcStack.PacketThrough(states, a.key, false, a.bytes, a.mac);
            var r := if a.key == k then ReceiveBytes(RlcStack.StateIn(states, k), a.bytes, a.mac)
                     else Outcome(RlcStack.StateIn(states, k), []);
            RlcStack.StateIn(o.states, k) == r.state && SdusFor(k, o.passed) == r.delivered
  {
    if !RlcStack.Refused(a.key.lcId, false, a.bytes) {
      SdusForTagged(k, a.key, ReceiveBytes(RlcStack.StateIn(states, a.key), a.bytes, a.mac).delivered);
    }
  }

  /** Each channel sees its own packets only: its state and its SDUs are those of its packets alone. */
  lemma {:induction false} ChannelsAreSeparate(states: map<Key, State>, arrivals: seq<Arrival>, k: Key)
    requires k.lcId <= SRB_2_LCID
    ensures var t := Through(states, arrivals);
            var o := ReceiveAll(RlcStack.StateIn(states, k), BytesFor(k, arrivals), MacsFor(k, arrivals));
            RlcStack.StateIn(t.states, k) == o.state && SdusFor(k, t.passed) == o.delivered
    decreases |arrivals|
  {
    if arrivals != [] {
      var o := RlcStack.PacketThrough(states, arrivals[0].key, false, arrivals[0].bytes, arrivals[0].mac);
      PacketOnChannel(states, arrivals[0], k);
      ChannelsAreSeparate(o.states, arrivals[1..], k);
      SdusForBoth(k, o.passed, Through(o.states, arrivals[1..]).passed);
      OneMoreReceived(RlcStack.StateIn(states, k), arrivals, k);
    }
  }

  lemma {:induction false} OneMoreReceived(st: State, arrivals: seq<Arrival>, k: Key)
    requires arrivals != []
    ensures var a := arrivals[0];
            var first := if a.key == k then ReceiveBytes(st, a.bytes, a.mac) else Outcome(st, []);
            var r := ReceiveAll(first.state, BytesFor(k, arrivals[1..]), MacsFor(k, arrivals[1..]));
            ReceiveAll(st, BytesFor(k, arrivals), MacsFor(k, arrivals)) == Outcome(r.state, first.delivered + r.delivered)
  {
    var air, macs := BytesFor(k, arrivals), MacsFor(k, arrivals);
    if arrivals[0].key == k {
      assert air[1..] == BytesFor(k, arrivals[1..]) && macs[1..] == MacsFor(k, arrivals[1..]);
    } else {
      assert air == BytesFor(k, arrivals[1..]) && macs == MacsFor(k, arrivals[1..]);
    }
  }

  /** Only the channels 1 and 2 (and 0, which MAC never hands on) have AM entities: from others nothing comes. */
  lemma {:induction false} OthersAreSilent(states: map<Key, State>, arrivals: seq<Arrival>, k: Key)
    requires k.lcId >= 3
    ensures var t := Through(states, arrivals); RlcStack.StateIn(t.states, k) == RlcStack.StateIn(states, k) && SdusFor(k, t.passed) == []
    decreases |arrivals|
  {
    if arrivals != [] {
      var a := arrivals[0];
      var o := RlcStack.PacketThrough(states, a.key, false, a.bytes, a.mac);
      if !RlcStack.Refused(a.key.lcId, false, a.bytes) {
        SdusForTagged(k, a.key, ReceiveBytes(RlcStack.StateIn(states, a.key), a.bytes, a.mac).delivered);
      }
      OthersAreSilent(o.states, arrivals[1..], k);
      SdusForBoth(k, o.passed, Through(o.states, arrivals[1..]).passed);
    }
  }

  /** Nothing moves for a UE that is about to be deleted. */
  lemma {:induction false} DeletedIsSilent(states: map<Key, State>, rnti: nat, packets: seq<RlcStack.Packet>, mac: Option<Report>)
    ensures RlcStack.PacketsThrough(states, rnti, true, packets, mac) == RlcStack.Traffic(states, [])
    decreases |packets|
  {
    if packets != [] { DeletedIsSilent(states, rnti, packets[..|packets| - 1], mac); }
  }

  // ----- Transport blocks -----

  /** A MAC PDU of a UE, the memory behind it, and the measurement of its time. */
  datatype Block = Block(rnti: nat, items: seq<MacDemux.Item>, padding: MacDemux.Padding, after: seq<byte>, mac: Option<Report>)

  predicate BlockOk(b: Block) {
    MacDemux.PduOk(b.items, b.padding)
  }

  function PacketsOf(pieces: seq<MacDemux.Piece>): seq<RlcStack.Packet> {
    seq(|pieces|, i requires 0 <= i < |pieces| => RlcStack.Packet(pieces[i].lcId, pieces[i].bytes))
  }

  /** The packets the MAC layer hands on, from all blocks in order. */
  function Received(blocks: seq<Block>): seq<Arrival>
    requires forall i :: 0 <= i < |blocks| ==> BlockOk(blocks[i])
    decreases |blocks|
  {
    if blocks == [] then []
    else
      var b := blocks[0];
      assert BlockOk(blocks[0]);
      var pdu := MacDemux.Encode(b.items, b.padding);
      (match MacDemux.Demux(pdu + b.after, |pdu|)
       case None => []
       case Some(pieces) => ArrivalsOf(b.rnti, PacketsOf(MacDemux.RlcOf(pieces)), b.mac))
      + Received(blocks[1..])
  }

  /** What the UE put into its blocks for one channel. */
  function SentOn(k: Key, blocks: seq<Block>): seq<seq<byte>>
    decreases |blocks|
  {
    if blocks == [] then []
    else (if blocks[0].rnti == k.rnti then DataOn(k.lcId, blocks[0].items) else []) + SentOn(k, blocks[1..])
  }

  function DataOn(lcId: nat, items: seq<MacDemux.Item>): seq<seq<byte>>
    decreases |items|
  {
    if items == [] then []
    else (if items[0].LcId() == lcId then [items[0].Data()] else []) + DataOn(lcId, items[1..])
  }

  lemma {:induction false} BytesForBoth(k: Key, a: seq<Arrival>, b: seq<Arrival>)
    ensures BytesFor(k, a + b) == BytesFor(k, a) + BytesFor(k, b)
    decreases |a|
  {
    if a == [] {
      assert a + b == b;
    } else {
      assert (a + b)[1..] == a[1..] + b;
      BytesForBoth(k, a[1..], b);
    }
  }

  lemma {:induction false} BytesOfItems(k: Key, rnti: nat, items: seq<MacDemux.Item>, mac: Option<Report>)
    ensures BytesFor(k, ArrivalsOf(rnti, PacketsOf(MacDemux.RlcOf(MacDemux.Pieces(items))), mac))
         == if rnti == k.rnti && 1 <= k.lcId <= 10 then DataOn(k.lcId, items) else []
    decreases |items|
  {
    if items != [] {
      BytesOfItems(k, rnti, items[1..], mac);
      RlcOfFirst(items);
      OneMorePacket(k, rnti, items[0].LcId(), items[0].Data(), MacDemux.RlcOf(MacDemux.Pieces(items[1..])), mac);
    }
  }

  lemma {:induction false} RlcOfFirst(items: seq<MacDemux.Item>)
    requires items != []
    ensures var rest := MacDemux.RlcOf(MacDemux.Pieces(items[1..]));
            MacDemux.RlcOf(MacDemux.Pieces(items)) ==
            if 1 <= items[0].LcId() <= 10 then [MacDemux.Piece(items[0].LcId(), items[0].Data())] + rest else rest
  {
    assert MacDemux.Pieces(items)[1..] == MacDemux.Pieces(items[1..]);
    assert MacDemux.Pieces(items)[0] == MacDemux.Piece(items[0].LcId(), items[0].Data());
  }

  lemma {:induction false} OneMorePacket(k: Key, rnti: nat, lcId: nat, data: seq<byte>, rest: seq<MacDemux.Piece>, mac: Option<Report>)
    ensures BytesFor(k, ArrivalsOf(rnti, PacketsOf([MacDemux.Piece(lcId, data)] + rest), mac))
         == (if Key(rnti, lcId) == k then [data] else []) + BytesFor(k, ArrivalsOf(rnti, PacketsOf(rest), mac))
  {
    var all := ArrivalsOf(rnti, PacketsOf([MacDemux.Piece(lcId, data)] + rest), mac);
    assert all[0] == Arrival(Key(rnti, lcId), data, mac);
    assert all[1..] == ArrivalsOf(rnti, PacketsOf(rest), mac);
  }

  /**
    Through encoding and demultiplexing each of the channels 1 to 10 gets exactly what was sent on it, and
    nothing else goes to the RLC layer.
   */
  lemma {:induction false} ReceivedIsSent(k: Key, blocks: seq<Block>)
    requires forall i :: 0 <= i < |blocks| ==> BlockOk(blocks[i])
    ensures BytesFor(k, Received(blocks)) == if 1 <= k.lcId <= 10 then SentOn(k, blocks) else []
    decreases |blocks|
  {
    if blocks != [] {
      var b := blocks[0];
      MacDemux.DemuxInvertsEncode(b.items, b.padding, b.after);
      BytesOfItems(k, b.rnti, b.items, b.mac);
      BytesForBoth(k, ArrivalsOf(b.rnti, PacketsOf(MacDemux.RlcOf(MacDemux.Pieces(b.items))), b.mac), Received(blocks[1..]));
      ReceivedIsSent(k, blocks[1..]);
    }
  }

  /** And the messages of the common control channel are the SDUs of channel 0. */
  lemma {:induction false} CcchIsSent(items: seq<MacDemux.Item>)
    ensures MacDemux.CcchOf(MacDemux.Pieces(items)) == DataOn(0, items)
    decreases |items|
  {
    if items != [] {
      assert MacDemux.Pieces(items)[1..] == MacDemux.Pieces(items[1..]);
      CcchIsSent(items[1..]);
    }
  }

  /**
    The whole way up: SDUs cut into AMD PDUs, which travel in any MAC PDUs together with control
    elements and packets of other channels and UEs, come out of their channel once each and in order,
    and what is held is exactly the sent part of the SDU under way.
   */
  lemma UplinkRoundTrip(states: map<Key, State>, blocks: seq<Block>, k: Key, sdus: seq<seq<byte>>, grants: seq<nat>, sn: nat)
    requires forall i :: 0 <= i < |blocks| ==> BlockOk(blocks[i])
    requires 1 <= k.lcId <= SRB_2_LCID && RlcStack.StateIn(states, k).held == Nothing
    requires sn < 1024 && NonEmpty(sdus) && AllEncodable(Transmit(sdus, false, grants))
    requires SentOn(k, blocks) == EncodeAll(Transmit(sdus, false, grants), sn)
    ensures var t := Through(states, Received(blocks));
            var held := RlcStack.StateIn(t.states, k).held;
            && sdus == Datas(SdusFor(k, t.passed)) + Restored(held, Unsent(sdus, grants))
            && (Unsent(sdus, grants) == [] ==> held == Nothing && Datas(SdusFor(k, t.passed)) == sdus)
  {
    var arrivals := Received(blocks);
    ReceivedIsSent(k, blocks);
    ChannelsAreSeparate(states, arrivals, k);
    ReassemblyInvertsSegmentation(sdus, grants, sn, RlcStack.StateIn(states, k).reports, MacsFor(k, arrivals));
  }
}
