/**
  The receiving AM entity of ulp/src/lteRlc.c:771-1028 on pool blocks.  The queues a received PDU
  passes through are values; the blocks behind them are those of the pool.  Every method names the
  live blocks it does not own (`others`) and leaves them as they are.
 */
module RlcEntity {
  import opened Bytes
  import opened RlcReassembly
  import opened MemPool

  datatype Dfe = Dfe(node: Ptr, status: SduStatus, size: nat, pData: Ptr)

  /** An SDU as PDCP gets it: `bytes` are the first `size` bytes of the buffer it takes over. */
  datatype Delivery = Delivery(rnti: nat, lcId: nat, buffer: Ptr, size: nat, bytes: seq<byte>, reports: seq<Report>)

  /** The layer above; it keeps every buffer it is handed. */
  class Pdcp {
    var inbox: seq<Delivery>

    constructor ()
      ensures inbox == []
    {
      inbox := [];
    }
  }

  /** The buffer `p` is live and starts with `bytes`. */
  ghost predicate StartsWith(node: map<Ptr, MemNode>, p: Ptr, bytes: seq<byte>) {
    && p in node && node[p].isInUsed
    && |bytes| <= |node[p].data| && node[p].data[..|bytes|] == bytes
  }

  /** The blocks of `s` did not change. */
  ghost predicate Kept(node: map<Ptr, MemNode>, node': map<Ptr, MemNode>, s: set<Ptr>) {
    forall p :: p in s ==> p in node && p in node' && node'[p] == node[p]
  }

  /** A queued element and its data are two live blocks; a piece to be held fills its buffer. */
  ghost predicate DfeOk(node: map<Ptr, MemNode>, d: Dfe) {
    && d.node != d.pData && d.pData != NULL
    && d.node in LiveIn(node) && d.pData in LiveIn(node)
    && d.size <= node[d.pData].length <= |node[d.pData].data|
    && (d.status == START || d.status == MID ==> d.size == node[d.pData].length)
  }

  ghost function ElemOf(node: map<Ptr, MemNode>, d: Dfe): Elem
    requires DfeOk(node, d)
  {
    Elem(d.status, node[d.pData].data[..d.size])
  }

  /** `now` are the SDUs handed up, in buffers of their own that make up `given`. */
  ghost predicate HandedUp(node: map<Ptr, MemNode>, rnti: nat, lcId: nat, now: seq<Delivery>, sdus: seq<Sdu>, given: set<Ptr>) {
    && |now| == |sdus|
    && (forall i :: 0 <= i < |now| ==>
          && now[i] == Delivery(rnti, lcId, now[i].buffer, |sdus[i].data|, sdus[i].data, sdus[i].reports)
          && now[i].buffer in given
          && StartsWith(node, now[i].buffer, sdus[i].data))
    && (forall i, j :: 0 <= i < j < |now| ==> now[i].buffer != now[j].buffer)
    && given == (set i | 0 <= i < |now| :: now[i].buffer)
  }

  // ----- Queues of elements -----

  ghost function Blocks(q: seq<Dfe>): set<Ptr> {
    (set d | d in q :: d.node) + (set d | d in q :: d.pData)
  }

  predicate Apart(d: Dfe, e: Dfe) {
    d.node != e.node && d.node != e.pData && d.pData != e.node && d.pData != e.pData
  }

  /** Live elements, no two of which share a block. */
  ghost predicate QueueOk(node: map<Ptr, MemNode>, q: seq<Dfe>) {
    && (forall i :: 0 <= i < |q| ==> DfeOk(node, q[i]))
    && (forall i, j :: 0 <= i < j < |q| ==> Apart(q[i], q[j]))
  }

  ghost function ElemsOf(node: map<Ptr, MemNode>, q: seq<Dfe>): seq<Elem>
    requires QueueOk(node, q)
  {
    seq(|q|, i requires 0 <= i < |q| => ElemOf(node, q[i]))
  }

  lemma QueueHead(node: map<Ptr, MemNode>, q: seq<Dfe>)
    requires q != [] && QueueOk(node, q)
    ensures QueueOk(node, q[1..])
    ensures Blocks(q) == {q[0].node, q[0].pData} + Blocks(q[1..])
    ensures q[0].node !in Blocks(q[1..]) && q[0].pData !in Blocks(q[1..])
    ensures ElemsOf(node, q) == [ElemOf(node, q[0])] + ElemsOf(node, q[1..])
  {
    assert q == [q[0]] + q[1..];
    forall d | d in q[1..]
      ensures Apart(q[0], d)
    {
      var i :| 0 <= i < |q[1..]| && q[1..][i] == d;
      assert q[i + 1] == d;
    }
  }

  lemma QueueKept(node: map<Ptr, MemNode>, node': map<Ptr, MemNode>, q: seq<Dfe>)
    requires QueueOk(node, q) && Kept(node, node', Blocks(q))
    ensures QueueOk(node', q) && ElemsOf(node', q) == ElemsOf(node, q)
  {
    forall i | 0 <= i < |q|
      ensures DfeOk(node', q[i]) && ElemOf(node', q[i]) == ElemOf(node, q[i])
    {
      assert q[i] in q;
      assert q[i].node in Blocks(q) && q[i].pData in Blocks(q);
    }
  }

  lemma QueueSnoc(node: map<Ptr, MemNode>, q: seq<Dfe>, d: Dfe)
    requires QueueOk(node, q) && DfeOk(node, d) && d.node !in Blocks(q) && d.pData !in Blocks(q)
    ensures QueueOk(node, q + [d])
    ensures Blocks(q + [d]) == Blocks(q) + {d.node, d.pData}
    ensures ElemsOf(node, q + [d]) == ElemsOf(node, q) + [ElemOf(node, d)]
  {
    forall i | 0 <= i < |q|
      ensures Apart(q[i], d)
    {
      assert q[i] in q && q[i].node in Blocks(q) && q[i].pData in Blocks(q);
    }
  }

  lemma HandedUpKept(node: map<Ptr, MemNode>, node': map<Ptr, MemNode>, rnti: nat, lcId: nat,
                     now: seq<Delivery>, sdus: seq<Sdu>, given: set<Ptr>)
    requires HandedUp(node, rnti, lcId, now, sdus, given) && Kept(node, node', given)
    ensures HandedUp(node', rnti, lcId, now, sdus, given)
  {
    forall i | 0 <= i < |now|
      ensures StartsWith(node', now[i].buffer, sdus[i].data)
    {
      assert now[i].buffer in given;
    }
  }

  lemma HandedBuffers(now: seq<Delivery>, more: seq<Delivery>, given: set<Ptr>, given': set<Ptr>)
    requires given == (set i | 0 <= i < |now| :: now[i].buffer) && given' == (set i | 0 <= i < |more| :: more[i].buffer)
    ensures given + given' == set i | 0 <= i < |now + more| :: (now + more)[i].buffer
  {
    forall p | p in given + given' ensures p in set i | 0 <= i < |now + more| :: (now + more)[i].buffer {
      if p in given {
        var i :| 0 <= i < |now| && now[i].buffer == p;
        assert (now + more)[i].buffer == p;
      } else {
        var i :| 0 <= i < |more| && more[i].buffer == p;
        assert (now + more)[|now| + i].buffer == p;
      }
    }
  }

  lemma HandedUpMore(node: map<Ptr, MemNode>, node': map<Ptr, MemNode>, rnti: nat, lcId: nat,
                     now: seq<Delivery>, sdus: seq<Sdu>, given: set<Ptr>,
                     more: seq<Delivery>, sdus': seq<Sdu>, given': set<Ptr>)
    requires HandedUp(node, rnti, lcId, now, sdus, given) && Kept(node, node', given)
    requires HandedUp(node', rnti, lcId, more, sdus', given') && given !! given'
    ensures HandedUp(node', rnti, lcId, now + more, sdus + sdus', given + given')
  {
    HandedBuffers(now, more, given, given');
    var all := now + more;
    forall i | 0 <= i < |all|
      ensures && all[i] == Delivery(rnti, lcId, all[i].buffer, |(sdus + sdus')[i].data|, (sdus + sdus')[i].data, (sdus + sdus')[i].reports)
              && all[i].buffer in given + given'
              && StartsWith(node', all[i].buffer, (sdus + sdus')[i].data)
    {
      if i < |now| {
        assert all[i] == now[i];
      } else {
        assert all[i] == more[i - |now|];
      }
    }
    forall i, j | 0 <= i < j < |all|
      ensures all[i].buffer != all[j].buffer
    {
      if i < |now| <= j {
        assert now[i].buffer in given && more[j - |now|].buffer in given';
      }
    }
    forall p | p in given + given'
      ensures exists i :: 0 <= i < |all| && all[i].buffer == p
    {
      if p in given {
        var i :| 0 <= i < |now| && now[i].buffer == p;
        assert all[i].buffer == p;
      } else {
        var i :| 0 <= i < |more| && more[i].buffer == p;
        assert all[|now| + i].buffer == p;
      }
    }
  }

  lemma JoinedPieces(node: map<Ptr, MemNode>, node': map<Ptr, MemNode>, held: Ptr, d: Dfe, r: Ptr, others: set<Ptr>)
    requires DistinctLive(node, held, d.pData) && node[held].length <= |node[held].data|
    requires DfeOk(node, d) && Joined(node, node', held, d.pData, r)
    requires others == LiveIn(node) - {held, d.pData}
    requires node[held].length + node[d.pData].length < UINT16
    ensures r !in others && LiveIn(node') == others + {r} && Kept(node, node', others)
    ensures r in node' && node'[r].length == node[held].length + node[d.pData].length <= |node'[r].data|
    ensures StartsWith(node', r, Content(node[held]) + ElemOf(node, d).data)
  {
    var both := Content(node[held]) + Content(node[d.pData]);
    var piece := Content(node[held]) + ElemOf(node, d).data;
    assert piece == both[..|piece|];
    assert node'[r].data[..|both|][..|piece|] == node'[r].data[..|piece|];
    assert r in LiveIn(node');
  }

  class RxAmEntity {
    const node: Ptr
    const rnti: nat
    const lcId: nat
    var reports: seq<Report>
    var rawSn: nat
    var rawSize: nat
    var rawData: Ptr

    constructor (node: Ptr, rnti: nat, lcId: nat)
      ensures this.node == node && this.rnti == rnti && this.lcId == lcId
      ensures rawSn == 0 && rawSize == 0 && rawData == NULL && reports == []
    {
      this.node, this.rnti, this.lcId := node, rnti, lcId;
      reports, rawSn, rawSize, rawData := [], 0, 0, NULL;
    }

    ghost function HeldBlocks(): set<Ptr>
      reads this
    {
      if rawData == NULL then {} else {rawData}
    }

    /** The held SDU fills its buffer: the recorded size is the pool length. */
    ghost predicate HeldOk(nodes: map<Ptr, MemNode>)
      reads this
    {
      rawData != NULL ==>
        && rawData in nodes && nodes[rawData].isInUsed
        && rawSize == nodes[rawData].length <= |nodes[rawData].data|
    }

    ghost function Abs(nodes: map<Ptr, MemNode>): State
      reads this
      requires HeldOk(nodes)
    {
      State(if rawData == NULL then Nothing else Partial(rawSn, Content(nodes[rawData])), reports)
    }

    /** The live blocks are `others` and the held one. */
    ghost predicate Owns(nodes: map<Ptr, MemNode>, others: set<Ptr>)
      reads this
    {
      && HeldOk(nodes)
      && LiveIn(nodes) == others + HeldBlocks()
      && others !! HeldBlocks()
    }

    /**
      The entity has reached the outcome `o`: its state is that of `o`, the SDUs of `o` are the new
      entries of the inbox, and beside `others`, which are untouched, only their buffers are live.
     */
    ghost predicate Reaches(o: Outcome, nodes: map<Ptr, MemNode>, nodes': map<Ptr, MemNode>, others: set<Ptr>,
                            given: set<Ptr>, inbox: seq<Delivery>, inbox': seq<Delivery>)
      reads this
    {
      && Owns(nodes', others + given) && given !! others
      && Kept(nodes, nodes', others)
      && Abs(nodes') == o.state
      && inbox <= inbox'
      && HandedUp(nodes', rnti, lcId, inbox'[|inbox|..], o.delivered, given)
    }

    method AddReport(mac: Option<Report>)
      modifies this`reports
      ensures reports == RlcReassembly.AddReport(old(reports), mac)
    {
      if mac.Some? {
        if |reports| < MAX_REPORTS {
          reports := reports + [mac.value];
        }
      }
    }

    method SetReport(mac: Option<Report>)
      modifies this`reports
      ensures reports == RlcReassembly.SetReport(old(reports), mac)
    {
      if mac.Some? {
        reports := [mac.value];
      }
    }

    /** RlcDeliverAmSduToPdcp, after which the report list is emptied by every caller. */
    method Deliver(pool: Pool, pdcp: Pdcp, buffer: Ptr, size: nat)
      requires buffer in pool.node && size <= |pool.node[buffer].data|
      modifies this`reports, pdcp
      ensures pdcp.inbox == old(pdcp.inbox) + [Delivery(rnti, lcId, buffer, size, pool.node[buffer].data[..size], old(reports))]
      ensures reports == []
    {
      pdcp.inbox := pdcp.inbox + [Delivery(rnti, lcId, buffer, size, pool.node[buffer].data[..size], reports)];
      reports := [];
    }

    /** A whole SDU in one element goes straight up. */
    method HandUpFull(pool: Pool, pdcp: Pdcp, d: Dfe, mac: Option<Report>, ghost others: set<Ptr>)
      returns (ghost given: set<Ptr>)
      requires pool.Valid() && rawData == NULL
      requires DfeOk(pool.node, d) && d.pData !in others && LiveIn(pool.node) == others + {d.pData}
      modifies this`reports, pdcp
      ensures Reaches(Outcome(State(Nothing, []), [Sdu(ElemOf(pool.node, d).data, RlcReassembly.SetReport(old(reports), mac))]),
                      old(pool.node), pool.node, others, given, old(pdcp.inbox), pdcp.inbox)
    {
      SetReport(mac);
      Deliver(pool, pdcp, d.pData, d.size);
      given := {d.pData};
      assert pdcp.inbox[|old(pdcp.inbox)|..][0].buffer == d.pData;
    }

    /** RlcReassembleFirstSduSegment: nothing is held. */
    method ReassembleFirst(pool: Pool, pdcp: Pdcp, sn: nat, d: Dfe, mac: Option<Report>, ghost others: set<Ptr>)
      returns (ghost given: set<Ptr>)
      requires pool.Valid() && rawData == NULL
      requires DfeOk(pool.node, d) && d.pData !in others && LiveIn(pool.node) == others + {d.pData}
      modifies this, pool`node, pool`pool, pdcp
      ensures pool.Valid()
      ensures Reaches(First(old(reports), sn, old(ElemOf(pool.node, d)), mac),
                      old(pool.node), pool.node, others, given, old(pdcp.inbox), pdcp.inbox)
    {
      hide Partitioned, AtHome;
      given := {};
      match d.status
      case FULL =>
        given := HandUpFull(pool, pdcp, d, mac, others);
      case START =>
        rawSn, rawSize, rawData := sn, d.size, d.pData;
        SetReport(mac);
      case _ =>
        pool.MemFree(d.pData);
    }

    /** Does the reassembler join element `d` of PDU `sn` to the SDU `h`? */
    static predicate Joins(h: Held, sn: nat, status: SduStatus) {
      && h.Partial?
      && ((status == END && (SnEqual(sn, h.sn + 1) || SnEqual(sn, h.sn)))
          || (status == MID && SnEqual(sn, h.sn + 1) && !SnEqual(sn, h.sn)))
    }

    /**
      The held buffer and the buffer of `d` become one.  The first `rawSize + d.size` bytes of the
      result are the two pieces; a buffer longer than its recorded size only ever comes last.
     */
    method JoinHeld(pool: Pool, d: Dfe, ghost others: set<Ptr>) returns (p: Ptr)
      requires pool.Valid() && pool.exact && rawData != NULL && Owns(pool.node, others + {d.pData})
      requires DfeOk(pool.node, d) && d.pData !in others
      modifies pool
      ensures pool.Valid()
      ensures pool.exact <==> JoinIsExact(pool.config, old(pool.pool), old(pool.node)[rawData], old(pool.node)[d.pData])
      ensures pool.exact ==>
                && p != NULL && p !in others && LiveIn(pool.node) == others + {p}
                && Kept(old(pool.node), pool.node, others)
                && p in pool.node && pool.node[p].length <= |pool.node[p].data|
                && pool.node[p].length == rawSize + old(pool.node)[d.pData].length
                && StartsWith(pool.node, p, old(Content(pool.node[rawData])) + old(ElemOf(pool.node, d)).data)
    {
      p := pool.MemJoin(rawData, d.pData);
      if pool.exact {
        JoinedPieces(old(pool.node), pool.node, rawData, d, p, others);
      }
    }

    method OnEnd(pool: Pool, pdcp: Pdcp, sn: nat, d: Dfe, mac: Option<Report>, ghost others: set<Ptr>)
      returns (ghost given: set<Ptr>)
      requires pool.Valid() && pool.exact && rawData != NULL && Owns(pool.node, others + {d.pData})
      requires DfeOk(pool.node, d) && d.pData !in others
      modifies this, pool, pdcp
      ensures pool.Valid()
      ensures pool.exact <==> old(JoinIsExact(pool.config, pool.pool, pool.node[rawData], pool.node[d.pData]))
      ensures pool.exact ==>
                Reaches(Outcome(State(Nothing, []),
                                [Sdu(old(Content(pool.node[rawData])) + old(ElemOf(pool.node, d)).data,
                                     RlcReassembly.AddReport(old(reports), mac))]),
                        old(pool.node), pool.node, others, given, old(pdcp.inbox), pdcp.inbox)
    {
      hide Partitioned, AtHome;
      given := {};
      var tmp := JoinHeld(pool, d, others);
      if !pool.exact {
        return;
      }
      rawSize := rawSize + d.size;
      rawData := tmp;
      AddReport(mac);
      Deliver(pool, pdcp, rawData, rawSize);
      given := {rawData};
      rawData := NULL;
      rawSize := 0;
      assert pdcp.inbox[|old(pdcp.inbox)|..][0].buffer == tmp;
    }

    /** A middle piece with the next sequence number. */
    method OnNextMid(pool: Pool, sn: nat, d: Dfe, mac: Option<Report>, ghost others: set<Ptr>, ghost inbox: seq<Delivery>)
      requires pool.Valid() && pool.exact && rawData != NULL && Owns(pool.node, others + {d.pData})
      requires DfeOk(pool.node, d) && d.status == MID && d.pData !in others
      modifies this, pool
      ensures pool.Valid()
      ensures pool.exact <==> old(JoinIsExact(pool.config, pool.pool, pool.node[rawData], pool.node[d.pData]))
      ensures pool.exact ==>
                Reaches(Outcome(State(Partial(sn, old(Content(pool.node[rawData])) + old(ElemOf(pool.node, d)).data),
                                      RlcReassembly.AddReport(old(reports), mac)), []),
                        old(pool.node), pool.node, others, {}, inbox, inbox)
    {
      var tmp := JoinHeld(pool, d, others);
      if !pool.exact {
        return;
      }
      rawSize := rawSize + d.size;
      rawData := tmp;
      rawSn := sn;
      AddReport(mac);
    }

    /** An element that does not fit: its buffer goes, the rest stays. */
    method Drop(pool: Pool, d: Dfe, ghost others: set<Ptr>, ghost inbox: seq<Delivery>)
      requires pool.Valid() && Owns(pool.node, others + {d.pData})
      requires DfeOk(pool.node, d) && d.pData !in others
      modifies pool`node, pool`pool
      ensures pool.Valid()
      ensures Reaches(Outcome(old(Abs(pool.node)), []), old(pool.node), pool.node, others, {}, inbox, inbox)
    {
      hide Partitioned, AtHome;
      pool.MemFree(d.pData);
    }

    /** MemFree of the held buffer, and the fields that name it. */
    method Forget(pool: Pool, ghost others: set<Ptr>)
      requires pool.Valid() && rawData != NULL && Owns(pool.node, others)
      modifies this`rawData, this`rawSize, pool`node, pool`pool
      ensures pool.Valid() && Owns(pool.node, others) && rawData == NULL
      ensures Kept(old(pool.node), pool.node, others)
    {
      pool.MemFree(rawData);
      rawData := NULL;
      rawSize := 0;
    }

    /** A first piece in place of the held one; the report list stays. */
    method StartOver(pool: Pool, sn: nat, d: Dfe, ghost others: set<Ptr>, ghost inbox: seq<Delivery>)
      requires pool.Valid() && rawData != NULL && Owns(pool.node, others + {d.pData})
      requires DfeOk(pool.node, d) && d.status == START && d.node in others && d.pData !in others
      modifies this, pool`node, pool`pool
      ensures pool.Valid()
      ensures Reaches(Outcome(State(Partial(sn, old(ElemOf(pool.node, d)).data), old(reports)), []),
                      old(pool.node), pool.node, others, {}, inbox, inbox)
    {
      pool.MemFree(rawData);
      rawData := d.pData;
      rawSize := d.size;
      rawSn := sn;
    }

    /** The switch of RlcReassembleInCmpAMSdu: `sn` is the held sequence number or the next one. */
    method ReassembleInWindow(pool: Pool, pdcp: Pdcp, sn: nat, d: Dfe, mac: Option<Report>, ghost others: set<Ptr>)
      returns (ghost given: set<Ptr>)
      requires pool.Valid() && pool.exact && rawData != NULL && Owns(pool.node, others + {d.pData})
      requires DfeOk(pool.node, d) && d.node in others && d.pData !in others
      requires SnEqual(sn, rawSn + 1) || SnEqual(sn, rawSn)
      modifies this, pool, pdcp
      ensures pool.Valid()
      ensures pool.exact <==>
                (old(Joins(Abs(pool.node).held, sn, d.status)) ==>
                   old(JoinIsExact(pool.config, pool.pool, pool.node[rawData], pool.node[d.pData])))
      ensures pool.exact ==>
                Reaches(InCmp(old(Abs(pool.node)).held, old(reports), sn, old(ElemOf(pool.node, d)), mac),
                        old(pool.node), pool.node, others, given, old(pdcp.inbox), pdcp.inbox)
    {
      hide Partitioned, AtHome;
      given := {};
      match d.status
      case END =>
        given := OnEnd(pool, pdcp, sn, d, mac, others);
      case MID =>
        if !SnEqual(sn, rawSn) {
          OnNextMid(pool, sn, d, mac, others, pdcp.inbox);
        } else {
          Drop(pool, d, others, pdcp.inbox);
        }
      case FULL =>
        Forget(pool, others + {d.pData});
        given := HandUpFull(pool, pdcp, d, mac, others);
      case START =>
        StartOver(pool, sn, d, others, pdcp.inbox);
    }

    /** Any other sequence number: a new SDU replaces the held one, a continuation is dropped. */
    method ReassembleOutOfWindow(pool: Pool, pdcp: Pdcp, sn: nat, d: Dfe, mac: Option<Report>, ghost others: set<Ptr>)
      returns (ghost given: set<Ptr>)
      requires pool.Valid() && rawData != NULL && Owns(pool.node, others + {d.pData})
      requires DfeOk(pool.node, d) && d.node in others && d.pData !in others
      requires !SnEqual(sn, rawSn + 1) && !SnEqual(sn, rawSn)
      modifies this, pool`node, pool`pool, pdcp
      ensures pool.Valid()
      ensures Reaches(InCmp(old(Abs(pool.node)).held, old(reports), sn, old(ElemOf(pool.node, d)), mac),
                      old(pool.node), pool.node, others, given, old(pdcp.inbox), pdcp.inbox)
    {
      hide Partitioned, AtHome;
      given := {};
      if d.status == FULL || d.status == START {
        ghost var e := ElemOf(pool.node, d);
        Forget(pool, others + {d.pData});
        assert DfeOk(pool.node, d) && ElemOf(pool.node, d) == e;
        given := ReassembleFirst(pool, pdcp, sn, d, mac, others);
      } else {
        Drop(pool, d, others, pdcp.inbox);
      }
    }

    /** RlcReassembleInCmpAMSdu: an unfinished SDU is held. */
    method ReassembleInCmp(pool: Pool, pdcp: Pdcp, sn: nat, d: Dfe, mac: Option<Report>, ghost others: set<Ptr>)
      returns (ghost given: set<Ptr>)
      requires pool.Valid() && pool.exact && rawData != NULL && Owns(pool.node, others + {d.pData})
      requires DfeOk(pool.node, d) && d.node in others && d.pData !in others
      modifies this, pool, pdcp
      ensures pool.Valid()
      ensures pool.exact <==>
                (old(Joins(Abs(pool.node).held, sn, d.status)) ==>
                   old(JoinIsExact(pool.config, pool.pool, pool.node[rawData], pool.node[d.pData])))
      ensures pool.exact ==>
                Reaches(InCmp(old(Abs(pool.node)).held, old(reports), sn, old(ElemOf(pool.node, d)), mac),
                        old(pool.node), pool.node, others, given, old(pdcp.inbox), pdcp.inbox)
    {
      hide Partitioned, AtHome;
      given := {};
      if SnEqual(sn, rawSn + 1) || SnEqual(sn, rawSn) {
        given := ReassembleInWindow(pool, pdcp, sn, d, mac, others);
      } else {
        given := ReassembleOutOfWindow(pool, pdcp, sn, d, mac, others);
      }
    }

    /** Part of a PDU is done: `q` is still queued, `done` was handed up in the buffers `given`. */
    ghost predicate Midway(nodes: map<Ptr, MemNode>, nodes': map<Ptr, MemNode>, others: set<Ptr>, q: seq<Dfe>,
                           done: seq<Sdu>, given: set<Ptr>, inbox: seq<Delivery>, inbox': seq<Delivery>)
      reads this
    {
      && Owns(nodes', others + given + Blocks(q))
      && others !! given && others !! Blocks(q) && given !! Blocks(q)
      && QueueOk(nodes', q)
      && Kept(nodes, nodes', others)
      && inbox <= inbox'
      && HandedUp(nodes', rnti, lcId, inbox'[|inbox|..], done, given)
    }

    method ReassembleElement(pool: Pool, pdcp: Pdcp, sn: nat, d: Dfe, mac: Option<Report>, ghost others: set<Ptr>)
      returns (ghost given: set<Ptr>)
      requires pool.Valid() && pool.exact && Owns(pool.node, others + {d.pData})
      requires DfeOk(pool.node, d) && d.node in others && d.pData !in others
      modifies this, pool, pdcp
      ensures pool.Valid()
      ensures pool.exact ==>
                Reaches(Step(old(Abs(pool.node)), sn, old(ElemOf(pool.node, d)), mac),
                        old(pool.node), pool.node, others, given, old(pdcp.inbox), pdcp.inbox)
    {
      if rawData != NULL {
        given := ReassembleInCmp(pool, pdcp, sn, d, mac, others);
      } else {
        given := ReassembleFirst(pool, pdcp, sn, d, mac, others);
      }
    }

    /** After the step on the head of `q`, the head's own block is still live. */
    lemma StepAccounts(nodes0: map<Ptr, MemNode>, nodes: map<Ptr, MemNode>, nodes': map<Ptr, MemNode>, others: set<Ptr>,
                       q: seq<Dfe>, done: seq<Sdu>, given: set<Ptr>, now: set<Ptr>, o: Outcome,
                       inbox0: seq<Delivery>, inbox: seq<Delivery>, inbox': seq<Delivery>)
      requires q != [] && QueueOk(nodes, q) && Kept(nodes0, nodes, others)
      requires others !! given && others !! Blocks(q) && given !! Blocks(q)
      requires inbox0 <= inbox && HandedUp(nodes, rnti, lcId, inbox[|inbox0|..], done, given)
      requires Reaches(o, nodes, nodes', others + given + Blocks(q[1..]) + {q[0].node}, now, inbox, inbox')
      ensures Owns(nodes', others + (given + now) + Blocks(q[1..]) + {q[0].node})
      ensures others !! given + now && others !! Blocks(q[1..]) && given + now !! Blocks(q[1..])
      ensures q[0].node !in others + (given + now) + Blocks(q[1..])
      ensures QueueOk(nodes', q[1..]) && ElemsOf(nodes', q[1..]) == ElemsOf(nodes, q[1..])
      ensures Kept(nodes0, nodes', others)
      ensures inbox0 <= inbox' && HandedUp(nodes', rnti, lcId, inbox'[|inbox0|..], done + o.delivered, given + now)
    {
      QueueHead(nodes, q);
      QueueKept(nodes, nodes', q[1..]);
      HandedUpMore(nodes, nodes', rnti, lcId, inbox[|inbox0|..], done, given, inbox'[|inbox|..], o.delivered, now);
      assert inbox'[|inbox0|..] == inbox[|inbox0|..] + inbox'[|inbox|..];
      assert others + given + Blocks(q[1..]) + {q[0].node} + now == others + (given + now) + Blocks(q[1..]) + {q[0].node};
    }

    lemma AfterFree(nodes0: map<Ptr, MemNode>, nodes: map<Ptr, MemNode>, nodes': map<Ptr, MemNode>, d: Dfe,
                    others: set<Ptr>, q: seq<Dfe>, done: seq<Sdu>, given: set<Ptr>,
                    inbox0: seq<Delivery>, inbox: seq<Delivery>)
      requires Owns(nodes, others + given + Blocks(q) + {d.node})
      requires d.node !in others + given + Blocks(q)
      requires others !! given && others !! Blocks(q) && given !! Blocks(q)
      requires QueueOk(nodes, q) && Kept(nodes0, nodes, others)
      requires inbox0 <= inbox && HandedUp(nodes, rnti, lcId, inbox[|inbox0|..], done, given)
      requires d.node in nodes && nodes' == nodes[d.node := Freed(nodes[d.node])]
      ensures Midway(nodes0, nodes', others, q, done, given, inbox0, inbox)
      ensures Abs(nodes') == Abs(nodes) && QueueOk(nodes', q) && ElemsOf(nodes', q) == ElemsOf(nodes, q)
    {
      QueueKept(nodes, nodes', q);
      HandedUpKept(nodes, nodes', rnti, lcId, inbox[|inbox0|..], done, given);
      assert LiveIn(nodes') == LiveIn(nodes) - {d.node};
    }

    /** MemFree of the block of an element that is done with. */
    method FreeDfe(pool: Pool, d: Dfe, ghost nodes0: map<Ptr, MemNode>, ghost others: set<Ptr>, ghost q: seq<Dfe>,
                   ghost done: seq<Sdu>, ghost given: set<Ptr>, ghost inbox0: seq<Delivery>, ghost inbox: seq<Delivery>)
      requires pool.Valid() && Owns(pool.node, others + given + Blocks(q) + {d.node})
      requires d.node !in others + given + Blocks(q)
      requires others !! given && others !! Blocks(q) && given !! Blocks(q)
      requires QueueOk(pool.node, q) && Kept(nodes0, pool.node, others)
      requires inbox0 <= inbox && HandedUp(pool.node, rnti, lcId, inbox[|inbox0|..], done, given)
      modifies pool`node, pool`pool
      ensures pool.Valid()
      ensures Midway(nodes0, pool.node, others, q, done, given, inbox0, inbox)
      ensures Abs(pool.node) == old(Abs(pool.node))
      ensures ElemsOf(pool.node, q) == old(ElemsOf(pool.node, q))
    {
      ghost var nodes := pool.node;
      pool.MemFree(d.node);
      AfterFree(nodes0, nodes, pool.node, d, others, q, done, given, inbox0, inbox);
    }

    /** One turn of the loop of RlcReassembleAmdDfeQ. */
    method ReassembleHead(pool: Pool, pdcp: Pdcp, sn: nat, q: seq<Dfe>, mac: Option<Report>,
                          ghost nodes0: map<Ptr, MemNode>, ghost others: set<Ptr>, ghost done: seq<Sdu>,
                          ghost given: set<Ptr>, ghost inbox0: seq<Delivery>)
      returns (ghost given': set<Ptr>)
      requires pool.Valid() && pool.exact && q != []
      requires Midway(nodes0, pool.node, others, q, done, given, inbox0, pdcp.inbox)
      modifies this, pool, pdcp
      ensures pool.Valid()
      ensures pool.exact ==>
                var o := Step(old(Abs(pool.node)), sn, old(ElemOf(pool.node, q[0])), mac);
                && Midway(nodes0, pool.node, others, q[1..], done + o.delivered, given', inbox0, pdcp.inbox)
                && Abs(pool.node) == o.state
                && old(QueueOk(pool.node, q[1..])) && ElemsOf(pool.node, q[1..]) == old(ElemsOf(pool.node, q[1..]))
    {
      hide Partitioned, AtHome;
      var d := q[0];
      given' := given;
      QueueHead(pool.node, q);
      ghost var rest := others + given + Blocks(q[1..]) + {d.node};
      assert others + given + Blocks(q) == rest + {d.pData};
      ghost var now := ReassembleElement(pool, pdcp, sn, d, mac, rest);
      if !pool.exact {
        return;
      }
      ghost var o := Step(old(Abs(pool.node)), sn, old(ElemOf(pool.node, d)), mac);
      StepAccounts(nodes0, old(pool.node), pool.node, others, q, done, given, now, o, inbox0, old(pdcp.inbox), pdcp.inbox);
      given' := given + now;
      FreeDfe(pool, d, nodes0, others, q[1..], done + o.delivered, given', inbox0, pdcp.inbox);
    }

    /** The same turn, seen from the whole PDU that ends up in `total`. */
    method ReassembleTurn(pool: Pool, pdcp: Pdcp, sn: nat, q: seq<Dfe>, mac: Option<Report>,
                          ghost nodes0: map<Ptr, MemNode>, ghost others: set<Ptr>, ghost done: seq<Sdu>,
                          ghost given: set<Ptr>, ghost inbox0: seq<Delivery>, ghost total: Outcome)
      returns (ghost given': set<Ptr>, ghost done': seq<Sdu>)
      requires pool.Valid() && pool.exact && q != []
      requires Midway(nodes0, pool.node, others, q, done, given, inbox0, pdcp.inbox)
      requires LeadsTo(Abs(pool.node), sn, ElemsOf(pool.node, q), mac, done, total)
      modifies this, pool, pdcp
      ensures pool.Valid()
      ensures pool.exact ==>
                && Midway(nodes0, pool.node, others, q[1..], done', given', inbox0, pdcp.inbox)
                && LeadsTo(Abs(pool.node), sn, ElemsOf(pool.node, q[1..]), mac, done', total)
    {
      QueueHead(pool.node, q);
      LeadsOn(Abs(pool.node), sn, ElemsOf(pool.node, q), mac, done, total);
      done' := done + Step(Abs(pool.node), sn, ElemOf(pool.node, q[0]), mac).delivered;
      given' := ReassembleHead(pool, pdcp, sn, q, mac, nodes0, others, done, given, inbox0);
    }

    lemma QueueBegins(nodes: map<Ptr, MemNode>, q: seq<Dfe>, others: set<Ptr>, inbox: seq<Delivery>)
      requires Owns(nodes, others + Blocks(q)) && others !! Blocks(q) && QueueOk(nodes, q)
      ensures Midway(nodes, nodes, others, q, [], {}, inbox, inbox)
    {
      assert others + {} + Blocks(q) == others + Blocks(q);
      assert inbox[|inbox|..] == [];
    }

    lemma QueueEnds(nodes0: map<Ptr, MemNode>, nodes: map<Ptr, MemNode>, others: set<Ptr>, sn: nat, mac: Option<Report>,
                    done: seq<Sdu>, given: set<Ptr>, inbox0: seq<Delivery>, inbox: seq<Delivery>, total: Outcome)
      requires Midway(nodes0, nodes, others, [], done, given, inbox0, inbox)
      requires LeadsTo(Abs(nodes), sn, ElemsOf(nodes, []), mac, done, total)
      ensures Reaches(total, nodes0, nodes, others, given, inbox0, inbox)
    {
      assert others + given + Blocks([]) == others + given;
      assert done + [] == done;
    }

    /** RlcReassembleAmdDfeQ */
    method ReassembleQueue(pool: Pool, pdcp: Pdcp, sn: nat, dfeQ: seq<Dfe>, mac: Option<Report>, ghost others: set<Ptr>)
      returns (ghost given: set<Ptr>)
      requires pool.Valid() && pool.exact
      requires Owns(pool.node, others + Blocks(dfeQ)) && others !! Blocks(dfeQ) && QueueOk(pool.node, dfeQ)
      modifies this, pool, pdcp
      ensures pool.Valid()
      ensures pool.exact ==>
                Reaches(Receive(old(Abs(pool.node)), sn, old(ElemsOf(pool.node, dfeQ)), mac),
                        old(pool.node), pool.node, others, given, old(pdcp.inbox), pdcp.inbox)
    {
      given := {};
      var q := dfeQ;
      ghost var done: seq<Sdu> := [];
      ghost var total := Receive(Abs(pool.node), sn, ElemsOf(pool.node, dfeQ), mac);
      assert LeadsTo(Abs(pool.node), sn, ElemsOf(pool.node, q), mac, done, total) by {
        assert [] + total.delivered == total.delivered;
      }
      QueueBegins(pool.node, q, others, pdcp.inbox);
      while q != []
        invariant pool.Valid() && pool.exact
        invariant Midway(old(pool.node), pool.node, others, q, done, given, old(pdcp.inbox), pdcp.inbox)
        invariant LeadsTo(Abs(pool.node), sn, ElemsOf(pool.node, q), mac, done, total)
        decreases |q|
      {
        given, done := ReassembleTurn(pool, pdcp, sn, q, mac, old(pool.node), others, done, given, old(pdcp.inbox), total);
        if !pool.exact {
          return;
        }
        q := q[1..];
      }
      QueueEnds(old(pool.node), pool.node, others, sn, mac, done, given, old(pdcp.inbox), pdcp.inbox, total);
    }
  }
}
