/**
  One received PDU through an AM entity: ring slot, decoding, reassembly and clean-up
  (ulp/src/lteRlc.c:190-224, 306-441, 730-810).
 */
module RlcReceiver {
  import opened Bytes
  import opened RlcReassembly
  import opened RlcCodec
  import opened MemPool
  import opened RlcEntity
  import opened RlcPduDecoder
  import RlcFormat

  const RING_SIZE: nat := 512

  datatype RingStatus = RS_FREE | RS_IN_USE | RS_READY

  datatype RingNode = RingNode(status: RingStatus, data: Ptr)

  /** A PDU being received: its own block and the segments that hold its elements. */
  datatype PduRecord = PduRecord(node: Ptr, complete: bool, segList: seq<Segment>)

  /** The ring of slots inside an AM entity. */
  class Ring {
    const ent: RxAmEntity
    var nodes: seq<RingNode>

    constructor (ent: RxAmEntity)
      ensures Idle() && this.ent == ent
    {
      this.ent := ent;
      nodes := seq(RING_SIZE, _ => RingNode(RS_FREE, NULL));
    }

    /** Between packets every slot is free and empty. */
    ghost predicate Idle()
      reads this
    {
      |nodes| == RING_SIZE && forall i :: 0 <= i < RING_SIZE ==> nodes[i] == RingNode(RS_FREE, NULL)
    }

    /** Slot `k` is taken by the PDU `p`, all others are free. */
    ghost predicate Holds(k: nat, status: RingStatus, p: Ptr)
      reads this
    {
      && |nodes| == RING_SIZE && k < RING_SIZE && nodes[k] == RingNode(status, p)
      && (forall i :: 0 <= i < RING_SIZE && i != k ==> nodes[i] == RingNode(RS_FREE, NULL))
    }

    method Set(k: nat, status: RingStatus, p: Ptr)
      requires |nodes| == RING_SIZE && k < RING_SIZE
      requires forall i :: 0 <= i < RING_SIZE && i != k ==> nodes[i] == RingNode(RS_FREE, NULL)
      modifies this
      ensures Holds(k, status, p)
      ensures status == RS_FREE && p == NULL ==> Idle()
    {
      nodes := nodes[k := RingNode(status, p)];
    }
  }

  /** RlcProcessAmdPduSegment: re-segmented PDUs are not supported, the buffer is freed. */
  method ProcessAmdPduSegment(pool: Pool, buf: Ptr, ghost others: set<Ptr>, ghost max: nat) returns (ok: bool)
    requires pool.Valid() && buf !in others && pool.Live() == others + {buf}
    modifies pool`node, pool`pool
    ensures pool.Valid() && pool.Live() == others && Kept(old(pool.node), pool.node, others)
    ensures !ok
  {
    Free(pool, buf, max);
    ok := false;
  }

  /** RlcDeleteAmdPdu for a PDU without segments left. */
  method DeleteAmdPdu(pool: Pool, pdu: PduRecord, ghost others: set<Ptr>, ghost max: nat)
    requires pool.Valid() && pdu.segList == [] && pdu.node !in others && pool.Live() == others + {pdu.node}
    modifies pool`node, pool`pool
    ensures pool.Valid() && pool.Live() == others && Kept(old(pool.node), pool.node, others)
  {
    Free(pool, pdu.node, max);
  }

  /** MemFree of the blocks of a segment and of its PDU after reassembly. */
  method FreeControls(pool: Pool, ent: RxAmEntity, seg: Ptr, pdu: Ptr, ghost nodes: map<Ptr, MemNode>, ghost o: Outcome,
                      ghost others: set<Ptr>, ghost given: set<Ptr>, ghost inbox: seq<Delivery>, ghost inbox': seq<Delivery>)
    requires pool.Valid() && seg != pdu && seg !in others && pdu !in others
    requires ent.Reaches(o, nodes, pool.node, others + {pdu, seg}, given, inbox, inbox')
    modifies pool`node, pool`pool
    ensures pool.Valid() && ent.Reaches(o, nodes, pool.node, others, given, inbox, inbox')
  {
    ghost var mid := pool.node;
    assert seg in LiveIn(mid) && pdu in LiveIn(mid);
    pool.MemFree(seg);
    pool.MemFree(pdu);
    FreedControls(ent, nodes, mid, pool.node, seg, pdu, o, others, given, inbox, inbox');
  }

  /** RlcReassembleRlcSdu for the complete PDU in slot `k`: its elements, then its own blocks. */
  method ReassembleRlcSdu(pool: Pool, pdcp: Pdcp, ent: RxAmEntity, ring: Ring, pdu: PduRecord, sn: nat, mac: Option<Report>,
                          ghost others: set<Ptr>, ghost elems: seq<Elem>)
    returns (ghost given: set<Ptr>)
    requires pool.Valid() && pool.exact && pdu.complete && |pdu.segList| == 1 && pdu.node != NULL
    requires ring.Holds(sn % RING_SIZE, RS_IN_USE, pdu.node)
    requires var seg := pdu.segList[0];
             && QueueOk(pool.node, seg.dfeQ) && ElemsOf(pool.node, seg.dfeQ) == elems
             && pdu.node != seg.node && pdu.node !in others && seg.node !in others
             && others + {pdu.node, seg.node} !! Blocks(seg.dfeQ)
             && ent.Owns(pool.node, others + {pdu.node, seg.node} + Blocks(seg.dfeQ))
    modifies ent, ring, pool, pdcp
    ensures pool.Valid()
    ensures pool.exact ==>
              && ring.Idle()
              && ent.Reaches(Receive(old(ent.Abs(pool.node)), sn, elems, mac), old(pool.node), pool.node,
                             others, given, old(pdcp.inbox), pdcp.inbox)
  {
    hide Partitioned, AtHome;
    var ringSn := sn % RING_SIZE;
    given := {};
    if ring.nodes[ringSn].status == RS_IN_USE {
      if pdu.complete {
        ring.Set(ringSn, RS_READY, pdu.node);
        var seg := pdu.segList[0];
        ghost var nodes, inbox, o := pool.node, pdcp.inbox, Receive(ent.Abs(pool.node), sn, elems, mac);
        ghost var both := others + {pdu.node, seg.node};
        given := ent.ReassembleQueue(pool, pdcp, sn, seg.dfeQ, mac, both);
        if !pool.exact {
          return;
        }
        FreeControls(pool, ent, seg.node, pdu.node, nodes, o, others, given, inbox, pdcp.inbox);
        ring.Set(ringSn, RS_FREE, NULL);
      }
    }
  }

  lemma FreedControls(ent: RxAmEntity, nodes: map<Ptr, MemNode>, mid: map<Ptr, MemNode>, node: map<Ptr, MemNode>,
                      a: Ptr, b: Ptr, o: Outcome, others: set<Ptr>, given: set<Ptr>, inbox: seq<Delivery>, inbox': seq<Delivery>)
    requires ent.Reaches(o, nodes, mid, others + {b, a}, given, inbox, inbox')
    requires a != b && a !in others && b !in others && a in mid && b in mid
    requires node == mid[a := Freed(mid[a])][b := Freed(mid[b])]
    ensures ent.Reaches(o, nodes, node, others, given, inbox, inbox')
  {
    HandedUpKept(mid, node, ent.rnti, ent.lcId, inbox'[|inbox|..], o.delivered, given);
    assert LiveIn(node) == LiveIn(mid) - {a, b};
  }

  /** Decoding into a new PDU record: complete, or nothing is left of it. */
  method DecodeNewPdu(pool: Pool, h: AmdHeader, buf: Ptr, beyond: nat -> byte, sizes: Sizes,
                      ghost others: set<Ptr>, ghost max: nat, ghost b: seq<byte>)
    returns (ok: bool, pdu: PduRecord, ghost lost: bool)
    requires pool.Valid() && buf !in others && pool.Live() == others + {buf}
    requires FitsRequests(sizes, |b|, max) && buf != NULL && Content(pool.node[buf]) == b
    requires DecodeHeader(b) == Some(h) && h.dc == 1
    modifies pool`node, pool`pool
    ensures pool.Valid() && Kept(old(pool.node), pool.node, others)
    ensures ok ==>
              && pdu.complete && |pdu.segList| == 1 && pdu.node != NULL && pdu.node !in others
              && SegmentOk(pool.node, pdu.segList[0], others + {pdu.node})
              && DecodePdu(b).Some? && ElemsOf(pool.node, pdu.segList[0].dfeQ) == DecodePdu(b).value.elems
    ensures !ok ==> pool.Live() == others && (lost || DecodePdu(b) == None)
    ensures lost ==> !ok && old(SpareIn(pool, max)) <= MOST_ALLOCS
  {
    hide Partitioned, AtHome;
    lost := false;
    ghost var nodes := pool.node;
    var node := Alloc(pool, sizes.amdPdu, max);
    pdu := PduRecord(node, false, []);
    if node == NULL {
      Free(pool, buf, max);
      return false, pdu, true;
    }
    assert pool.Live() == (others + {node}) + {buf} && pool.node[buf] == nodes[buf];
    if h.rf == 1 {
      ok := ProcessAmdPduSegment(pool, buf, others + {node}, max);
    } else {
      var seg;
      ok, seg, lost := DecodeAmdPdu(pool, h, buf, beyond, sizes, others + {node}, max, b);
      if ok {
        pdu := PduRecord(node, true, [seg]);
      }
    }
    if !ok {
      DeleteAmdPdu(pool, pdu, others, max);
    }
  }

  lemma PduOwned(ent: RxAmEntity, nodes: map<Ptr, MemNode>, node: map<Ptr, MemNode>, others: set<Ptr>, pdu: Ptr, seg: Segment)
    requires ent.HeldOk(nodes) && others !! ent.HeldBlocks()
    requires Kept(nodes, node, others + ent.HeldBlocks())
    requires pdu !in others + ent.HeldBlocks() && SegmentOk(node, seg, others + ent.HeldBlocks() + {pdu})
    ensures pdu != seg.node && pdu !in others && seg.node !in others
    ensures others + {pdu, seg.node} !! Blocks(seg.dfeQ)
    ensures ent.Owns(node, others + {pdu, seg.node} + Blocks(seg.dfeQ))
    ensures ent.Abs(node) == ent.Abs(nodes)
  {
    assert others + ent.HeldBlocks() + {pdu} + {seg.node} + Blocks(seg.dfeQ)
        == others + {pdu, seg.node} + Blocks(seg.dfeQ) + ent.HeldBlocks();
  }

  /** Nothing was made of the PDU: the entity and the inbox are as before. */
  lemma PduDropped(ent: RxAmEntity, nodes: map<Ptr, MemNode>, node: map<Ptr, MemNode>, others: set<Ptr>, inbox: seq<Delivery>)
    requires ent.HeldOk(nodes) && others !! ent.HeldBlocks()
    requires Kept(nodes, node, others + ent.HeldBlocks()) && LiveIn(node) == others + ent.HeldBlocks()
    ensures ent.Reaches(Outcome(ent.Abs(nodes), []), nodes, node, others, {}, inbox, inbox)
  {
    assert inbox[|inbox|..] == [];
  }

  lemma BytesReceived(st: State, h: AmdHeader, b: seq<byte>, mac: Option<Report>)
    requires DecodeHeader(b) == Some(h)
    ensures ReceiveBytes(st, b, mac) == if DecodePdu(b).Some? then Receive(st, h.sn, DecodePdu(b).value.elems, mac) else Outcome(st, [])
  {
  }

  /** A segment of a PDU changed neither the entity nor the inbox. */
  lemma SegmentIgnored(ent: RxAmEntity, b: seq<byte>, st: State, mac: Option<Report>, lost: bool, nodes: map<Ptr, MemNode>,
                       node: map<Ptr, MemNode>, others: set<Ptr>, given: set<Ptr>, inbox: seq<Delivery>, inbox': seq<Delivery>)
    requires b != [] && b[0] >= 192
    requires ent.Reaches(if lost then Outcome(st, []) else ReceiveBytes(st, b, mac), nodes, node, others, given, inbox, inbox')
    ensures ent.Abs(node) == st && inbox' == inbox
  {
    RlcFormat.NoPdu(st, b, mac);
    hide ReceiveBytes;
  }

  /**
    RlcProcessAMRxPacket from the ring on, for a data PDU `b`: the entity moves as ReceiveBytes says,
    unless the PDU is `lost` for want of memory.  Every slot of the ring is free before and after, so
    the slot of the PDU is, and the branch for further segments of a PDU is not taken.  A segment (RF set)
    leaves the entity and the inbox as they are.
   */
  method ReceiveDataPdu(pool: Pool, pdcp: Pdcp, ent: RxAmEntity, ring: Ring, h: AmdHeader, buf: Ptr, beyond: nat -> byte,
                        sizes: Sizes, mac: Option<Report>, ghost others: set<Ptr>, ghost max: nat, ghost b: seq<byte>)
    returns (ghost given: set<Ptr>, ghost lost: bool)
    requires pool.Valid() && pool.exact && ring.Idle()
    requires ent.Owns(pool.node, others + {buf}) && buf !in others && buf != NULL && Content(pool.node[buf]) == b
    requires FitsRequests(sizes, |b|, max) && DecodeHeader(b) == Some(h) && h.dc == 1
    modifies ent, ring, pool, pdcp
    ensures pool.Valid()
    ensures pool.exact ==>
              && ring.Idle()
              && ent.Reaches(if lost then Outcome(old(ent.Abs(pool.node)), []) else ReceiveBytes(old(ent.Abs(pool.node)), b, mac),
                             old(pool.node), pool.node, others, given, old(pdcp.inbox), pdcp.inbox)
    ensures lost ==> old(SpareIn(pool, max)) <= MOST_ALLOCS
    ensures pool.exact && b[0] >= 192 ==> ent.Abs(pool.node) == old(ent.Abs(pool.node)) && pdcp.inbox == old(pdcp.inbox)
  {
    hide Partitioned, AtHome, HandedUp, DecodePdu, ReceiveBytes, ElemsOf, QueueOk, Receive;
    BytesReceived(ent.Abs(pool.node), h, b, mac);
    given, lost := {}, false;
    ghost var nodes, st, inbox := pool.node, ent.Abs(pool.node), pdcp.inbox;
    var ringSn := h.sn % RING_SIZE;
    if ring.nodes[ringSn].status == RS_FREE {
      if ring.nodes[ringSn].data != NULL {
        assert false;
      }
      assert pool.Live() == (others + ent.HeldBlocks()) + {buf};
      var ok, pdu;
      ok, pdu, lost := DecodeNewPdu(pool, h, buf, beyond, sizes, others + ent.HeldBlocks(), max, b);
      if ok {
        PduOwned(ent, nodes, pool.node, others, pdu.node, pdu.segList[0]);
        ring.Set(ringSn, RS_IN_USE, pdu.node);
        ghost var mid := pool.node;
        given := ReassembleRlcSdu(pool, pdcp, ent, ring, pdu, h.sn, mac, others, DecodePdu(b).value.elems);
      } else {
        PduDropped(ent, nodes, pool.node, others, pdcp.inbox);
      }
      if pool.exact && b[0] >= 192 {
        SegmentIgnored(ent, b, st, mac, lost, nodes, pool.node, others, given, inbox, pdcp.inbox);
      }
    } else {
      assert false;
    }
  }
}
