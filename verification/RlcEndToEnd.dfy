/**
  Segment, concatenate, encode, receive: the identity.

  The transmitting peer (sections 4.2.1.3.2 and 6.2.2 of 3GPP TS 36.322) takes some number of bytes
  of its queue of SDUs for each PDU.  Pieces inside a PDU are cut at SDU boundaries only, so the
  list of byte counts ranges over every way of cutting and concatenating the SDUs.
 */
module RlcEndToEnd {
  import opened Bytes
  import opened RlcReassembly
  import opened RlcCodec

  /** `cont`: the first piece continues an SDU. `open`: the SDU of the last piece goes on. */
  datatype TxPdu = TxPdu(cont: bool, pieces: seq<seq<byte>>, open: bool)

  datatype Taken = Taken(pieces: seq<seq<byte>>, open: bool, rest: seq<seq<byte>>)

  ghost predicate NonEmpty(sdus: seq<seq<byte>>) {
    forall i :: 0 <= i < |sdus| ==> sdus[i] != []
  }

  /** Takes `n` bytes off the queue, or all there is. */
  function Take(queue: seq<seq<byte>>, n: nat): Taken
    requires queue != []
    decreases |queue|
  {
    if n < |queue[0]| then Taken([queue[0][..n]], true, [queue[0][n..]] + queue[1..])
    else if n == |queue[0]| || |queue| == 1 then Taken([queue[0]], false, queue[1..])
    else
      var t := Take(queue[1..], n - |queue[0]|);
      Taken([queue[0]] + t.pieces, t.open, t.rest)
  }

  /** The PDUs sent for the byte counts `grants`; nothing is sent once the queue is empty. */
  function Transmit(queue: seq<seq<byte>>, cont: bool, grants: seq<nat>): seq<TxPdu>
    decreases |grants|
  {
    if queue == [] || grants == [] then []
    else
      var t := Take(queue, grants[0]);
      [TxPdu(cont, t.pieces, t.open)] + Transmit(t.rest, t.open, grants[1..])
  }

  /** What is still to be sent afterwards; a first SDU partly sent appears with its remainder. */
  function Unsent(queue: seq<seq<byte>>, grants: seq<nat>): seq<seq<byte>>
    decreases |grants|
  {
    if queue == [] || grants == [] then queue
    else Unsent(Take(queue, grants[0]).rest, grants[1..])
  }

  // ----- PDUs on the air -----

  function Fi(cont: bool, open: bool): nat {
    (if cont then 2 else 0) + (if open then 1 else 0)
  }

  function Lengths(pieces: seq<seq<byte>>): (r: seq<nat>)
    requires pieces != []
    ensures |r| == |pieces| - 1
    ensures forall i :: 0 <= i < |r| ==> r[i] == |pieces[i]|
  {
    seq(|pieces| - 1, i requires 0 <= i < |pieces| - 1 => |pieces[i]|)
  }

  /** The limits of the format: at most 256 LIs, each of 11 bits and not zero. */
  ghost predicate Encodable(pdu: TxPdu) {
    && 1 <= |pdu.pieces| <= MAX_DFE + 1
    && (forall i :: 0 <= i < |pdu.pieces| - 1 ==> 1 <= |pdu.pieces[i]| < 2048)
  }

  function Encode(pdu: TxPdu, sn: nat): seq<byte>
    requires Encodable(pdu) && sn < 1024
  {
    var n := |pdu.pieces|;
    EncodeHeader(0, Fi(pdu.cont, pdu.open), if n > 1 then 1 else 0, sn)
    + (if n > 1 then EncodeLis(Lengths(pdu.pieces)) else [])
    + Flatten(pdu.pieces)
  }

  /** The elements of the PDU as its sender means them. */
  function Meant(pdu: TxPdu): seq<Elem> {
    if |pdu.pieces| == 1 then [Elem(SingleStatus(Fi(pdu.cont, pdu.open)), pdu.pieces[0])]
    else Elements(Fi(pdu.cont, pdu.open), pdu.pieces)
  }

  lemma ListReadBack(header: seq<byte>, lis: seq<nat>, data: seq<byte>)
    requires |header| == 2 && 1 <= |lis| <= MAX_DFE
    requires forall i :: 0 <= i < |lis| ==> 1 <= lis[i] < 2048
    ensures var b := header + EncodeLis(lis) + data;
            && LisWithin(AfterHeader(b), 0, |b|) == Some(lis)
            && HeaderSize(|lis|) <= |b|
            && b[HeaderSize(|lis|)..] == data
  {
    var list := EncodeLis(lis);
    var b := header + list + data;
    var at := AfterHeader(b);
    forall i | 0 <= i < |list|
      ensures at(i) == list[i]
    {
      assert b[2 + i] == list[i];
    }
    LiRoundTrip(lis, at);
  }

  lemma ConcatenatedRoundTrip(pdu: TxPdu, sn: nat)
    requires Encodable(pdu) && sn < 1024 && |pdu.pieces| > 1
    ensures DecodePdu(Encode(pdu, sn)) == Some(AmdPdu(sn, Meant(pdu)))
  {
    var fi, lis := Fi(pdu.cont, pdu.open), Lengths(pdu.pieces);
    var header, data := EncodeHeader(0, fi, 1, sn), Flatten(pdu.pieces);
    assert header + EncodeLis(lis) + data == header + (EncodeLis(lis) + data);
    HeaderRoundTrip(0, fi, 1, sn, EncodeLis(lis) + data);
    ListReadBack(header, lis, data);
    SplitInverts(pdu.pieces, lis);
  }

  /** Decoding an encoded PDU gives its sequence number and its elements. */
  lemma PduRoundTrip(pdu: TxPdu, sn: nat)
    requires Encodable(pdu) && sn < 1024
    ensures DecodePdu(Encode(pdu, sn)) == Some(AmdPdu(sn, Meant(pdu)))
  {
    if |pdu.pieces| > 1 {
      ConcatenatedRoundTrip(pdu, sn);
    } else {
      var fi := Fi(pdu.cont, pdu.open);
      var data := pdu.pieces[0];
      assert Flatten(pdu.pieces) == data + Flatten(pdu.pieces[1..]) == data;
      assert Encode(pdu, sn) == EncodeHeader(0, fi, 0, sn) + data;
      HeaderRoundTrip(0, fi, 0, sn, data);
      assert Encode(pdu, sn)[2..] == data;
    }
  }

  // ----- The receiving side -----

  function HeldData(held: Held): seq<byte> {
    if held.Partial? then held.data else []
  }

  /** The queue of SDUs with the held part put back in front of the first one. */
  function Restored(held: Held, queue: seq<seq<byte>>): seq<seq<byte>> {
    if queue == [] then [] else [HeldData(held) + queue[0]] + queue[1..]
  }

  function Datas(sdus: seq<Sdu>): seq<seq<byte>> {
    seq(|sdus|, i requires 0 <= i < |sdus| => sdus[i].data)
  }

  /** The entity is ready for the PDU numbered `sn`, whose first piece continues an SDU if `cont`. */
  ghost predicate InStep(st: State, sn: nat, cont: bool, queue: seq<seq<byte>>) {
    && NonEmpty(queue)
    && st.held.Partial? == cont
    && (cont ==> queue != [] && SnEqual(sn, st.held.sn + 1))
  }

  /** The elements of a PDU from the second on, all of the same PDU, with nothing held in between. */
  function Tail(pieces: seq<seq<byte>>, open: bool): seq<Elem> {
    Elements(if open then 1 else 0, pieces)
  }

  lemma MeantSplit(cont: bool, pieces: seq<seq<byte>>, open: bool)
    requires |pieces| > 1
    ensures Meant(TxPdu(cont, pieces, open)) ==
            [Elem(if cont then END else FULL, pieces[0])] + Tail(pieces[1..], open)
  {
  }

  lemma MeantOne(cont: bool, piece: seq<byte>, open: bool)
    ensures Meant(TxPdu(cont, [piece], open)) ==
            [Elem(if cont then (if open then MID else END) else (if open then START else FULL), piece)]
    ensures Tail([piece], open) == [Elem(if open then START else FULL, piece)]
  {
  }

  lemma TailSplit(pieces: seq<seq<byte>>, open: bool)
    requires |pieces| > 1
    ensures Tail(pieces, open) == [Elem(FULL, pieces[0])] + Tail(pieces[1..], open)
  {
  }

  ghost predicate Ready(st: State, sn: nat, open: bool, rest: seq<seq<byte>>) {
    && NonEmpty(rest)
    && st.held.Partial? == open
    && (open ==> rest != [] && st.held.sn == sn)
  }

  ghost predicate Expects(st: State, sn: nat, cont: bool) {
    && st.held.Partial? == cont
    && (cont ==> SnEqual(sn, st.held.sn + 1))
  }

  /** An element that ends its SDU. */
  lemma Ending(st: State, sn: nat, cont: bool, piece: seq<byte>, mac: Option<Report>)
    requires Expects(st, sn, cont)
    ensures var o := Step(st, sn, Elem(if cont then END else FULL, piece), mac);
            && o.state.held == Nothing
            && Datas(o.delivered) == [HeldData(st.held) + piece]
  {
    assert [] + piece == piece;
  }

  /** An element whose SDU goes on. */
  lemma GoingOn(st: State, sn: nat, cont: bool, piece: seq<byte>, mac: Option<Report>)
    requires Expects(st, sn, cont)
    ensures var o := Step(st, sn, Elem(if cont then MID else START, piece), mac);
            && o.state.held == Partial(sn, HeldData(st.held) + piece)
            && o.delivered == []
  {
    assert [] + piece == piece;
  }

  lemma ReceiveOne(st: State, sn: nat, e: Elem, mac: Option<Report>)
    ensures Receive(st, sn, [e], mac) == Step(st, sn, e, mac)
  {
    var o := Step(st, sn, e, mac);
    assert Receive(o.state, sn, [e][1..], mac) == Outcome(o.state, []);
    assert o.delivered + [] == o.delivered;
  }

  lemma DatasAppend(a: seq<Sdu>, b: seq<Sdu>)
    ensures Datas(a + b) == Datas(a) + Datas(b)
  {
  }

  /** `o` accounts for everything pending before: delivered first, then still pending. */
  ghost predicate Conserves(before: seq<seq<byte>>, o: Outcome, sn: nat, t: Taken) {
    && before == Datas(o.delivered) + Restored(o.state.held, t.rest)
    && Ready(o.state, sn, t.open, t.rest)
  }

  lemma OnePieceReceived(st: State, sn: nat, cont: bool, queue: seq<seq<byte>>, n: nat, mac: Option<Report>)
    requires queue != [] && NonEmpty(queue) && Expects(st, sn, cont)
    requires n <= |queue[0]| || |queue| == 1
    ensures var t := Take(queue, n);
            && |t.pieces| == 1
            && Conserves(Restored(st.held, queue), Receive(st, sn, Meant(TxPdu(cont, t.pieces, t.open)), mac), sn, t)
  {
    var t := Take(queue, n);
    var piece := t.pieces[0];
    assert t.pieces == [piece];
    MeantOne(cont, piece, t.open);
    var e := Meant(TxPdu(cont, t.pieces, t.open))[0];
    ReceiveOne(st, sn, e, mac);
    if t.open {
      GoingOn(st, sn, cont, piece, mac);
      assert HeldData(st.held) + queue[0] == HeldData(st.held) + piece + queue[0][n..];
    } else {
      Ending(st, sn, cont, piece, mac);
      Settled(queue[1..]);
    }
  }

  lemma Settled(queue: seq<seq<byte>>)
    ensures Restored(Nothing, queue) == queue
  {
    if queue != [] { assert [] + queue[0] == queue[0]; }
  }

  /** Fresh pieces arriving with nothing held: what was taken is delivered or held. */
  lemma {:induction false} TailReceived(st: State, sn: nat, queue: seq<seq<byte>>, n: nat, mac: Option<Report>)
    requires queue != [] && NonEmpty(queue) && st.held == Nothing
    ensures var t := Take(queue, n);
            t.pieces != [] && Conserves(queue, Receive(st, sn, Tail(t.pieces, t.open), mac), sn, t)
    decreases |queue|, 1
  {
    var t := Take(queue, n);
    Settled(queue);
    if n <= |queue[0]| || |queue| == 1 {
      OnePieceReceived(st, sn, false, queue, n, mac);
      assert t.pieces == [t.pieces[0]];
      MeantOne(false, t.pieces[0], t.open);
    } else {
      MorePiecesReceived(st, sn, false, queue, n, mac);
      TailSplit(t.pieces, t.open);
    }
  }

  lemma ConservesCons(head: seq<byte>, queue: seq<seq<byte>>, now: seq<Sdu>, r: Outcome, sn: nat, t: Taken, later: Taken)
    requires Datas(now) == [head] && Conserves(queue, r, sn, later)
    requires t.rest == later.rest && t.open == later.open
    ensures Conserves([head] + queue, Outcome(r.state, now + r.delivered), sn, t)
  {
    hide Datas, Restored, Ready;
    DatasAppend(now, r.delivered);
    assert [head] + (Datas(r.delivered) + Restored(r.state.held, t.rest)) == [head] + Datas(r.delivered) + Restored(r.state.held, t.rest);
  }

  lemma {:induction false} MorePiecesReceived(st: State, sn: nat, cont: bool, queue: seq<seq<byte>>, n: nat, mac: Option<Report>)
    requires queue != [] && NonEmpty(queue) && Expects(st, sn, cont)
    requires n > |queue[0]| && |queue| > 1
    ensures var t := Take(queue, n);
            var e := Elem(if cont then END else FULL, queue[0]);
            && |t.pieces| > 1 && t.pieces[0] == queue[0]
            && Conserves(Restored(st.held, queue), Receive(st, sn, [e] + Tail(t.pieces[1..], t.open), mac), sn, t)
    decreases |queue|, 0
  {
    var t, later := Take(queue, n), Take(queue[1..], n - |queue[0]|);
    var e := Elem(if cont then END else FULL, queue[0]);
    var first := Step(st, sn, e, mac);
    var es := Tail(later.pieces, later.open);
    Ending(st, sn, cont, queue[0], mac);
    TailReceived(first.state, sn, queue[1..], n - |queue[0]|, mac);
    assert t.pieces == [queue[0]] + later.pieces;
    assert t.pieces[1..] == later.pieces;
    ReceiveFirst(st, sn, e, es, mac);
    ConservesCons(HeldData(st.held) + queue[0], queue[1..], first.delivered,
                  Receive(first.state, sn, es, mac), sn, t, later);
  }

  /** One PDU in step: what was pending is what is delivered, then what is still pending. */
  lemma PduReceived(st: State, sn: nat, cont: bool, queue: seq<seq<byte>>, n: nat, mac: Option<Report>)
    requires queue != [] && InStep(st, sn, cont, queue)
    ensures var t := Take(queue, n);
            Conserves(Restored(st.held, queue), Receive(st, sn, Meant(TxPdu(cont, t.pieces, t.open)), mac), sn, t)
  {
    var t := Take(queue, n);
    if n <= |queue[0]| || |queue| == 1 {
      OnePieceReceived(st, sn, cont, queue, n, mac);
    } else {
      MorePiecesReceived(st, sn, cont, queue, n, mac);
      MeantSplit(cont, t.pieces, t.open);
    }
  }

  /** The encoded PDUs, numbered from `sn` modulo 1024. */
  function EncodeAll(pdus: seq<TxPdu>, sn: nat): seq<seq<byte>>
    requires sn < 1024 && AllEncodable(pdus)
    decreases |pdus|
  {
    if pdus == [] then [] else [Encode(pdus[0], sn)] + EncodeAll(pdus[1..], (sn + 1) % 1024)
  }

  /** Received PDUs fed to the entity one after the other, each with the measurement of its time. */
  function ReceiveAll(st: State, air: seq<seq<byte>>, macs: seq<Option<Report>>): Outcome
    requires |macs| == |air|
    decreases |air|
  {
    if air == [] then Outcome(st, [])
    else
      var o := ReceiveBytes(st, air[0], macs[0]);
      var r := ReceiveAll(o.state, air[1..], macs[1..]);
      Outcome(r.state, o.delivered + r.delivered)
  }

  ghost predicate AllEncodable(pdus: seq<TxPdu>) {
    forall i :: 0 <= i < |pdus| ==> Encodable(pdus[i])
  }

  lemma TransmitCons(queue: seq<seq<byte>>, cont: bool, grants: seq<nat>)
    requires queue != [] && grants != [] && AllEncodable(Transmit(queue, cont, grants))
    ensures var t := Take(queue, grants[0]);
            && Transmit(queue, cont, grants) != []
            && Transmit(queue, cont, grants)[0] == TxPdu(cont, t.pieces, t.open)
            && Transmit(queue, cont, grants)[1..] == Transmit(t.rest, t.open, grants[1..])
            && AllEncodable(Transmit(t.rest, t.open, grants[1..]))
  {
    var pdus := Transmit(queue, cont, grants);
    assert forall i :: 0 <= i < |pdus[1..]| ==> pdus[1..][i] == pdus[i + 1];
  }

  lemma ReceiveAllCons(st: State, sn: nat, pdus: seq<TxPdu>, macs: seq<Option<Report>>)
    requires sn < 1024 && pdus != [] && AllEncodable(pdus) && AllEncodable(pdus[1..])
    requires |macs| == |EncodeAll(pdus, sn)|
    ensures var o := Receive(st, sn, Meant(pdus[0]), macs[0]);
            var air := EncodeAll(pdus[1..], (sn + 1) % 1024);
            && |macs[1..]| == |air|
            && var r := ReceiveAll(o.state, air, macs[1..]);
               ReceiveAll(st, EncodeAll(pdus, sn), macs) == Outcome(r.state, o.delivered + r.delivered)
  {
    PduRoundTrip(pdus[0], sn);
    var air := EncodeAll(pdus, sn);
    assert air[0] == Encode(pdus[0], sn) && air[1..] == EncodeAll(pdus[1..], (sn + 1) % 1024);
  }

  lemma {:induction false} EncodeAllSize(pdus: seq<TxPdu>, sn: nat)
    requires sn < 1024 && AllEncodable(pdus)
    ensures |EncodeAll(pdus, sn)| == |pdus|
  {
    if pdus != [] { EncodeAllSize(pdus[1..], (sn + 1) % 1024); }
  }

  lemma NextInStep(st: State, sn: nat, open: bool, rest: seq<seq<byte>>)
    requires Ready(st, sn, open, rest)
    ensures InStep(st, (sn + 1) % 1024, open, rest)
  {
  }

  /** `o` delivered the front of `before`; what it holds belongs to the front of `after`. */
  ghost predicate Delivers(before: seq<seq<byte>>, o: Outcome, after: seq<seq<byte>>) {
    && before == Datas(o.delivered) + Restored(o.state.held, after)
    && (o.state.held.Partial? ==> after != [])
  }

  lemma DeliversTwice(before: seq<seq<byte>>, o: Outcome, between: seq<seq<byte>>, r: Outcome, after: seq<seq<byte>>)
    requires Delivers(before, o, between) && Delivers(Restored(o.state.held, between), r, after)
    ensures Delivers(before, Outcome(r.state, o.delivered + r.delivered), after)
  {
    DatasAppend(o.delivered, r.delivered);
  }

  lemma {:induction false} InOrderFrom(queue: seq<seq<byte>>, cont: bool, grants: seq<nat>, sn: nat, st: State,
                                       macs: seq<Option<Report>>)
    requires sn < 1024 && InStep(st, sn, cont, queue)
    requires AllEncodable(Transmit(queue, cont, grants))
    requires |macs| == |EncodeAll(Transmit(queue, cont, grants), sn)|
    ensures Delivers(Restored(st.held, queue), ReceiveAll(st, EncodeAll(Transmit(queue, cont, grants), sn), macs),
                     Unsent(queue, grants))
    decreases |grants|
  {
    if queue == [] || grants == [] {
      assert Datas([]) == [];
      return;
    }
    var t := Take(queue, grants[0]);
    var pdus := Transmit(queue, cont, grants);
    TransmitCons(queue, cont, grants);
    PduReceived(st, sn, cont, queue, grants[0], macs[0]);
    ReceiveAllCons(st, sn, pdus, macs);
    var o := Receive(st, sn, Meant(pdus[0]), macs[0]);
    NextInStep(o.state, sn, t.open, t.rest);
    InOrderFrom(t.rest, t.open, grants[1..], (sn + 1) % 1024, o.state, macs[1..]);
    var r := ReceiveAll(o.state, EncodeAll(pdus[1..], (sn + 1) % 1024), macs[1..]);
    DeliversTwice(Restored(st.held, queue), o, t.rest, r, Unsent(queue, grants));
  }

  /**
    For every list of non-empty SDUs and every way of cutting and concatenating them into encodable
    PDUs with consecutive sequence numbers, feeding the PDUs in order to an entity that holds
    nothing delivers SDUs of the queue, once each and in order, and holds exactly the sent part of
    the SDU that is still under way.
   */
  lemma ReassemblyInvertsSegmentation(sdus: seq<seq<byte>>, grants: seq<nat>, sn: nat, reports: seq<Report>,
                                      macs: seq<Option<Report>>)
    requires sn < 1024 && NonEmpty(sdus)
    requires AllEncodable(Transmit(sdus, false, grants))
    requires |macs| == |EncodeAll(Transmit(sdus, false, grants), sn)|
    ensures var o := ReceiveAll(State(Nothing, reports), EncodeAll(Transmit(sdus, false, grants), sn), macs);
            && sdus == Datas(o.delivered) + Restored(o.state.held, Unsent(sdus, grants))
            && (Unsent(sdus, grants) == [] ==> o.state.held == Nothing && Datas(o.delivered) == sdus)
  {
    InOrderFrom(sdus, false, grants, sn, State(Nothing, reports), macs);
    Settled(sdus);
  }

  /** Enough bytes granted means the whole queue is sent. */
  lemma {:induction false} GrantsSuffice(queue: seq<seq<byte>>, grants: seq<nat>)
    requires Sum(grants) >= |Flatten(queue)| && NonEmpty(queue)
    ensures Unsent(queue, grants) == []
    decreases |grants|
  {
    if queue != [] {
      assert Flatten(queue) == queue[0] + Flatten(queue[1..]);
      if grants == [] { return; }
      TakeRemoves(queue, grants[0]);
      GrantsSuffice(Take(queue, grants[0]).rest, grants[1..]);
    }
  }

  lemma {:induction false} TakeRemoves(queue: seq<seq<byte>>, n: nat)
    requires queue != [] && NonEmpty(queue)
    ensures var t := Take(queue, n);
            NonEmpty(t.rest) && (|Flatten(t.rest)| == |Flatten(queue)| - n || t.rest == [])
    decreases |queue|
  {
    var t := Take(queue, n);
    assert Flatten(queue) == queue[0] + Flatten(queue[1..]);
    if n < |queue[0]| {
      assert t.rest[1..] == queue[1..];
      assert Flatten(t.rest) == queue[0][n..] + Flatten(queue[1..]);
    } else if n > |queue[0]| && |queue| > 1 {
      TakeRemoves(queue[1..], n - |queue[0]|);
    }
  }

  /** When as many bytes were granted as the queue has, all its SDUs are delivered and nothing is held. */
  lemma GrantedIsDelivered(sdus: seq<seq<byte>>, grants: seq<nat>, sn: nat, reports: seq<Report>, macs: seq<Option<Report>>)
    requires sn < 1024 && NonEmpty(sdus) && Sum(grants) >= |Flatten(sdus)|
    requires AllEncodable(Transmit(sdus, false, grants))
    requires |macs| == |EncodeAll(Transmit(sdus, false, grants), sn)|
    ensures var o := ReceiveAll(State(Nothing, reports), EncodeAll(Transmit(sdus, false, grants), sn), macs);
            Datas(o.delivered) == sdus && o.state.held == Nothing
  {
    hide *;
    ReassemblyInvertsSegmentation(sdus, grants, sn, reports, macs);
    GrantsSuffice(sdus, grants);
  }
}
