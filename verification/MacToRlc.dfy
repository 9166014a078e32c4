/**
  What the MAC layer decoded becomes an indication in pool blocks, and goes through the RLC layer
  (ulp/src/lteMac.c:249-399, 667-843).  An allocation may fail; then the SDU or the whole indication
  is lost.  The array of an indication is not cleared, so an entry without a buffer keeps what `stale`
  says was there.
 */
module MacToRlc {
  import opened Bytes
  import opened RlcReassembly
  import opened MemPool
  import opened RlcEntity
  import opened RlcPduDecoder
  import opened BlockOwners
  import opened RlcLayer
  import opened RlcStack
  import opened Uplink
  import MacDemux

  /** Places in the array of an indication; a PDU has at most 17 entries, so that they suffice. */
  const MAX_NUM_UL_PKTS: nat := 106

  /** `blocks` are new packets in flight, all else is as before. */
  ghost predicate Loaded(s: Snapshot, t: Snapshot, blocks: set<Ptr>) {
    && (forall q :: InFlightIn(t, q) <==> InFlightIn(s, q) || (q in blocks && q != NULL))
    && (forall q :: InFlightIn(s, q) ==> q !in blocks && q in s.node && q in t.node && t.node[q] == s.node[q])
    && States(t) == States(s) && t.inbox == s.inbox && t.contexts == s.contexts && t.entities == s.entities
    && LiveIn(s.node) <= LiveIn(t.node)
  }

  lemma PacketLoaded(s: Snapshot, node: map<Ptr, MemNode>, p: Ptr)
    requires Sound(s) && p != NULL
    requires p !in LiveIn(s.node) && LiveIn(node) == LiveIn(s.node) + {p} && Kept(s.node, node, LiveIn(s.node))
    ensures Sound(WithPacket(s, node, p)) && Loaded(s, WithPacket(s, node, p), {p})
  {
    PacketMade(s, node, p);
  }

  lemma FilledLoaded(s: Snapshot, u: Snapshot, node: map<Ptr, MemNode>, p: Ptr)
    requires Sound(u) && Loaded(s, u, {p}) && p != NULL
    requires LiveIn(node) == LiveIn(u.node) && Kept(u.node, node, LiveIn(u.node) - {p})
    ensures Sound(u.(node := node)) && Loaded(s, u.(node := node), {p})
  {
    PacketFilled(u, node, p);
    assert forall q :: InFlightIn(u.(node := node), q) <==> InFlightIn(u, q);
    assert forall q :: InFlightIn(s, q) ==> q in LiveIn(u.node) - {p} by { assert forall q :: InFlightIn(s, q) ==> InFlightIn(u, q); }
  }

  /** A new block in flight, or null. */
  method NewBlock(layer: Layer, length: nat, ghost max: nat) returns (p: Ptr)
    requires layer.Ready()
    modifies layer`now, layer.pool`node, layer.pool`pool
    ensures layer.Ready()
    ensures p == NULL ==> layer.now == old(layer.now) && (length <= max ==> SpareIn(layer.pool, max) == 0)
    ensures p != NULL ==>
              && Loaded(old(layer.now), layer.now, {p})
              && p in layer.now.node && layer.now.node[p].length == length % UINT16 && length <= |layer.now.node[p].data|
  {
    hide Sound, Loaded, Partitioned, AtHome;
    p := Alloc(layer.pool, length, max);
    if p != NULL {
      LiveIsOwned(old(layer.now));
      PacketLoaded(layer.now, layer.pool.node, p);
      layer.now := WithPacket(layer.now, layer.pool.node, p);
      layer.StillLinked();
    }
  }

  lemma LiveIsOwned(s: Snapshot)
    requires Sound(s)
    ensures s.owner.Keys == LiveIn(s.node)
  {
  }

  /** MemAlloc and memcpy. */
  method NewPacket(layer: Layer, bytes: seq<byte>, ghost max: nat) returns (p: Ptr)
    requires layer.Ready() && |bytes| < UINT16 && |bytes| <= max
    modifies layer`now, layer.pool`node, layer.pool`pool
    ensures layer.Ready()
    ensures p == NULL ==> layer.now == old(layer.now) && SpareIn(layer.pool, max) == 0
    ensures p != NULL ==>
              && Loaded(old(layer.now), layer.now, {p})
              && p in layer.now.node && layer.now.node[p].length == |bytes| <= |layer.now.node[p].data|
              && Content(layer.now.node[p]) == bytes
  {
    hide Sound, Loaded, Partitioned, AtHome;
    p := NewBlock(layer, |bytes|, max);
    if p != NULL {
      ghost var u := layer.now;
      LoadedIsLive(old(layer.now), u, p);
      Fill(layer.pool, p, bytes);
      FilledLoaded(old(layer.now), u, layer.pool.node, p);
      layer.now := u.(node := layer.pool.node);
      layer.StillLinked();
    }
  }

  lemma LoadedIsLive(s: Snapshot, t: Snapshot, p: Ptr)
    requires Loaded(s, t, {p}) && Sound(t) && p != NULL
    ensures p in LiveIn(t.node) && InFlightIn(t, p)
  {
    assert InFlightIn(t, p);
  }

  // ----- An indication under construction -----

  ghost function Parts(ind: Ptr, data: Ptr, infos: seq<RlcUlDataInfo>): set<Ptr> {
    {ind, data} + BuffersOf(infos)
  }

  /** The block of the indication, that of its array once there is one, and the buffers of its entries. */
  ghost predicate Built(s: Snapshot, u: Snapshot, ind: Ptr, data: Ptr, infos: seq<RlcUlDataInfo>, max: nat) {
    && Loaded(s, u, Parts(ind, data, infos)) && ind != NULL && ind != data && (data == NULL ==> infos == [])
    && (forall i :: 0 <= i < |infos| ==> InfoOk(u, infos[i], max) && infos[i].rlcdataBuffer !in {ind, data})
    && BuffersDiffer(infos)
  }

  lemma BuiltIsOk(s: Snapshot, u: Snapshot, ind: Ptr, data: Ptr, infos: seq<RlcUlDataInfo>, rnti: nat, max: nat)
    requires Built(s, u, ind, data, infos, max)
    ensures IndOk(u, MacUeDataInd_t(ind, rnti, if data == NULL then None else Some(RlcUlData(data, infos))), max)
  {
  }

  lemma BuildBegins(s: Snapshot, u: Snapshot, ind: Ptr, max: nat)
    requires Loaded(s, u, {ind}) && ind != NULL
    ensures Built(s, u, ind, NULL, [], max)
  {
  }

  lemma BuildData(s: Snapshot, u: Snapshot, t: Snapshot, ind: Ptr, data: Ptr, max: nat)
    requires Built(s, u, ind, NULL, [], max) && Loaded(u, t, {data}) && data != NULL
    ensures Built(s, t, ind, data, [], max)
  {
    assert InFlightIn(u, ind);
  }

  /** One more entry, with a buffer. */
  lemma BuildEntry(s: Snapshot, u: Snapshot, t: Snapshot, ind: Ptr, data: Ptr, infos: seq<RlcUlDataInfo>, info: RlcUlDataInfo, max: nat)
    requires Built(s, u, ind, data, infos, max) && data != NULL && info.rlcdataBuffer != NULL
    requires Loaded(u, t, {info.rlcdataBuffer}) && info.rlcdataBuffer in t.node && info.length <= max
    requires info.length == t.node[info.rlcdataBuffer].length <= |t.node[info.rlcdataBuffer].data|
    ensures Built(s, t, ind, data, infos + [info], max)
    ensures PacketsIn(t.node, infos + [info]) == PacketsIn(u.node, infos) + [Packet(info.lcId, Content(t.node[info.rlcdataBuffer]))]
  {
    var p, more := info.rlcdataBuffer, infos + [info];
    assert InFlightIn(u, ind) && InFlightIn(u, data);
    forall i | 0 <= i < |infos|
      ensures InfoOk(t, infos[i], max) && infos[i].rlcdataBuffer != p
      ensures BytesOf(t.node, infos[i].rlcdataBuffer) == BytesOf(u.node, infos[i].rlcdataBuffer)
    {
      assert InfoOk(u, infos[i], max);
    }
    BuffersMore(infos, info);
    assert InFlightIn(t, p);
    LoadedMore(s, u, t, Parts(ind, data, infos), p);
    assert Parts(ind, data, more) == Parts(ind, data, infos) + {p};
  }

  lemma BuffersMore(infos: seq<RlcUlDataInfo>, info: RlcUlDataInfo)
    ensures BuffersOf(infos + [info]) == BuffersOf(infos) + {info.rlcdataBuffer}
  {
  }

  lemma LoadedMore(s: Snapshot, u: Snapshot, t: Snapshot, blocks: set<Ptr>, p: Ptr)
    requires Loaded(s, u, blocks) && Loaded(u, t, {p})
    ensures Loaded(s, t, blocks + {p})
  {
    assert forall q :: InFlightIn(s, q) ==> InFlightIn(u, q);
  }

  /** One more entry, without a buffer. */
  lemma BuildGap(s: Snapshot, u: Snapshot, ind: Ptr, data: Ptr, infos: seq<RlcUlDataInfo>, info: RlcUlDataInfo, max: nat)
    requires Built(s, u, ind, data, infos, max) && data != NULL && info.rlcdataBuffer == NULL
    ensures Built(s, u, ind, data, infos + [info], max)
  {
    BuffersMore(infos, info);
    assert Parts(ind, data, infos + [info]) == Parts(ind, data, infos) + {NULL};
  }

  // ----- CCCH messages -----

  lemma FreeBlocksChanged(s: Snapshot, node: map<Ptr, MemNode>)
    requires Sound(s) && LiveIn(node) == LiveIn(s.node) && Kept(s.node, node, LiveIn(s.node))
    ensures Sound(s.(node := node)) && Loaded(s, s.(node := node), {})
  {
    var t := s.(node := node);
    assert ContextNodes(t) == ContextNodes(s) && EntityNodes(t) == EntityNodes(s) && HeldNodes(t) == HeldNodes(s);
    KeptSound(s, node, {});
    StatesSame(s, t);
  }

  /** A CCCH message is copied to a buffer, which RRC has freed when it returns. */
  method PassCcch(layer: Layer, bytes: seq<byte>, ghost max: nat) returns (ok: bool)
    requires layer.Ready() && |bytes| < UINT16 && |bytes| <= max
    modifies layer`now, layer.pool`node, layer.pool`pool
    ensures layer.Ready()
    ensures ok ==> Loaded(old(layer.now), layer.now, {})
    ensures !ok ==> layer.now == old(layer.now) && SpareIn(layer.pool, max) == 0
  {
    hide Sound, Loaded, Partitioned, AtHome;
    var p := Alloc(layer.pool, |bytes|, max);
    ok := p != NULL;
    if ok {
      Fill(layer.pool, p, bytes);
      Free(layer.pool, p, max);
      FreeBlocksChanged(layer.now, layer.pool.node);
      layer.now := layer.now.(node := layer.pool.node);
      layer.StillLinked();
    }
  }

  // ----- The loop of MacDeMultiplexAndSend -----

  lemma LoadedNothing(s: Snapshot, u: Snapshot, t: Snapshot, ind: Ptr, data: Ptr, infos: seq<RlcUlDataInfo>, max: nat)
    requires Built(s, u, ind, data, infos, max) && Loaded(u, t, {})
    ensures Built(s, t, ind, data, infos, max) && PacketsIn(t.node, infos) == PacketsIn(u.node, infos)
  {
    forall i | 0 <= i < |infos|
      ensures InfoOk(t, infos[i], max) && BytesOf(t.node, infos[i].rlcdataBuffer) == BytesOf(u.node, infos[i].rlcdataBuffer)
    {
      assert InfoOk(u, infos[i], max);
    }
    assert forall q :: InFlightIn(s, q) ==> InFlightIn(u, q);
  }

  /** When an allocation fails, the blocks that fit every request are all live. */
  ghost predicate AllInUse(s: Snapshot, blocks: nat) {
    blocks <= |LiveIn(s.node)|
  }

  lemma OutOfBlocks(layer: Layer, max: nat)
    requires layer.Ready() && SpareIn(layer.pool, max) == 0
    ensures AllInUse(layer.now, |Fitting(layer.pool.config, layer.pool.home, max)|)
  {
    SpareOrLive(layer.pool.config, layer.pool.node, layer.pool.pool, layer.pool.home, max);
  }

  lemma InUseStays(s: Snapshot, t: Snapshot, blocks: set<Ptr>, n: nat)
    requires Loaded(s, t, blocks) && AllInUse(s, n)
    ensures AllInUse(t, n)
  {
    SubsetSize(LiveIn(s.node), LiveIn(t.node));
  }

  /** MacDemuxOneToTenLchMsg: an SDU becomes an entry of the indication, whose array may have to be allocated first. */
  method MacDemuxOneToTenLchMsg(layer: Layer, lchId: nat, bytes: seq<byte>, sizeData: nat, stale: RlcUlDataInfo, ghost s: Snapshot,
                                ind: Ptr, data: Ptr, infos: seq<RlcUlDataInfo>, ghost max: nat)
    returns (data': Ptr, infos': seq<RlcUlDataInfo>, ghost lost: bool)
    requires layer.Ready() && Built(s, layer.now, ind, data, infos, max) && |infos| < MacDemux.MAX_NUM_CHANNELS
    requires |bytes| < UINT16 && |bytes| <= max && sizeData <= max
    modifies layer`now, layer.pool`node, layer.pool`pool
    ensures layer.Ready() && Built(s, layer.now, ind, data', infos', max) && |infos'| <= |infos| + 1
    ensures !lost ==> PacketsIn(layer.now.node, infos') == PacketsIn(old(layer.now.node), infos) + [Packet(lchId, bytes)]
    ensures lost ==> AllInUse(layer.now, |Fitting(layer.pool.config, layer.pool.home, max)|)
    ensures LiveIn(old(layer.now.node)) <= LiveIn(layer.now.node)
  {
    hide Sound, Loaded, Partitioned, AtHome, Built, AllInUse, PacketsIn;
    data', infos', lost := data, infos, false;
    ghost var u := layer.now;
    assert |infos| < MAX_NUM_UL_PKTS;
    if data == NULL {
      NoEntries(s, u, ind, infos, max);
      data' := NewBlock(layer, sizeData, max);
      if data' == NULL {
        OutOfBlocks(layer, max);
        return data', infos, true;
      }
      BuildData(s, u, layer.now, ind, data', max);
      NoPackets(u.node, layer.now.node);
      LiveGrows(u, layer.now, {data'});
    }
    ghost var v := layer.now;
    var p := NewPacket(layer, bytes, max);
    if p == NULL {
      lost := true;
      OutOfBlocks(layer, max);
      infos' := infos + [stale.(rlcdataBuffer := NULL)];
      BuildGap(s, v, ind, data', infos, stale.(rlcdataBuffer := NULL), max);
    } else {
      var info := RlcUlDataInfo(p, |bytes|, lchId);
      infos' := infos + [info];
      BuildEntry(s, v, layer.now, ind, data', infos, info, max);
      LiveGrows(v, layer.now, {p});
    }
  }

  lemma LiveGrows(s: Snapshot, t: Snapshot, blocks: set<Ptr>)
    requires Loaded(s, t, blocks)
    ensures LiveIn(s.node) <= LiveIn(t.node)
  {
  }

  lemma NoEntries(s: Snapshot, u: Snapshot, ind: Ptr, infos: seq<RlcUlDataInfo>, max: nat)
    requires Built(s, u, ind, NULL, infos, max)
    ensures infos == []
  {
  }

  lemma NoPackets(a: map<Ptr, MemNode>, b: map<Ptr, MemNode>)
    ensures PacketsIn(a, []) == PacketsIn(b, [])
  {
  }

  lemma {:induction false} EntriesFit(recorded: seq<MacDemux.DemuxData>, i: nat)
    requires i < |recorded|
    ensures recorded[i].length <= MacDemux.Total(recorded)
    decreases |recorded|
  {
    if i < |recorded| - 1 {
      EntriesFit(recorded[..|recorded| - 1], i);
    }
  }

  /** Of `pieces`, all but `rest` are in the indication or were passed on as CCCH messages. */
  ghost predicate Placed(node: map<Ptr, MemNode>, infos: seq<RlcUlDataInfo>, pieces: seq<MacDemux.Piece>, ccch: seq<seq<byte>>,
                         rest: seq<MacDemux.Piece>)
  {
    exists sent :: MacDemux.SentOn(pieces, ccch, sent, rest) && PacketsIn(node, infos) == PacketsOf(sent)
  }

  lemma PlacedNone(node: map<Ptr, MemNode>, pieces: seq<MacDemux.Piece>)
    ensures Placed(node, [], pieces, [], pieces)
  {
    MacDemux.SendBegins(pieces);
    assert PacketsIn(node, []) == PacketsOf([]);
  }

  lemma PlacedCcch(node: map<Ptr, MemNode>, node': map<Ptr, MemNode>, infos: seq<RlcUlDataInfo>, pieces: seq<MacDemux.Piece>,
                   ccch: seq<seq<byte>>, rest: seq<MacDemux.Piece>)
    requires Placed(node, infos, pieces, ccch, rest) && rest != [] && rest[0].lcId == MacDemux.CCCH
    requires PacketsIn(node', infos) == PacketsIn(node, infos)
    ensures Placed(node', infos, pieces, ccch + [rest[0].bytes], rest[1..])
  {
    hide MacDemux.SentOn, PacketsIn;
    var sent :| MacDemux.SentOn(pieces, ccch, sent, rest) && PacketsIn(node, infos) == PacketsOf(sent);
    MacDemux.SendNext(pieces, ccch, sent, rest);
  }

  lemma PlacedSdu(node: map<Ptr, MemNode>, node': map<Ptr, MemNode>, infos: seq<RlcUlDataInfo>, infos': seq<RlcUlDataInfo>,
                  pieces: seq<MacDemux.Piece>, ccch: seq<seq<byte>>, rest: seq<MacDemux.Piece>)
    requires Placed(node, infos, pieces, ccch, rest) && rest != [] && 1 <= rest[0].lcId <= 10
    requires PacketsIn(node', infos') == PacketsIn(node, infos) + [Packet(rest[0].lcId, rest[0].bytes)]
    ensures Placed(node', infos', pieces, ccch, rest[1..])
  {
    hide MacDemux.SentOn, PacketsIn;
    var sent :| MacDemux.SentOn(pieces, ccch, sent, rest) && PacketsIn(node, infos) == PacketsOf(sent);
    MacDemux.SendNext(pieces, ccch, sent, rest);
    assert PacketsOf(sent + [rest[0]]) == PacketsOf(sent) + [Packet(rest[0].lcId, rest[0].bytes)];
  }

  lemma PlacedOther(node: map<Ptr, MemNode>, infos: seq<RlcUlDataInfo>, pieces: seq<MacDemux.Piece>,
                    ccch: seq<seq<byte>>, rest: seq<MacDemux.Piece>)
    requires Placed(node, infos, pieces, ccch, rest) && rest != [] && rest[0].lcId > 10
    ensures Placed(node, infos, pieces, ccch, rest[1..])
  {
    hide MacDemux.SentOn, PacketsIn;
    var sent :| MacDemux.SentOn(pieces, ccch, sent, rest) && PacketsIn(node, infos) == PacketsOf(sent);
    MacDemux.SendNext(pieces, ccch, sent, rest);
  }

  lemma PlacedAll(node: map<Ptr, MemNode>, infos: seq<RlcUlDataInfo>, mem: seq<byte>, at: nat, pieces: seq<MacDemux.Piece>,
                  ccch: seq<seq<byte>>)
    requires Placed(node, infos, pieces, ccch, MacDemux.Cut(mem, at, []))
    ensures ccch == MacDemux.CcchOf(pieces) && PacketsIn(node, infos) == PacketsOf(MacDemux.RlcOf(pieces))
  {
    hide MacDemux.SentOn;
    var sent :| MacDemux.SentOn(pieces, ccch, sent, MacDemux.Cut(mem, at, [])) && PacketsIn(node, infos) == PacketsOf(sent);
    MacDemux.SendEnds(mem, at, pieces, ccch, sent);
  }

  function Indication(ind: Ptr, rnti: nat, data: Ptr, infos: seq<RlcUlDataInfo>): MacUeDataInd_t {
    MacUeDataInd_t(ind, rnti, if data == NULL then None else Some(RlcUlData(data, infos)))
  }

  /** What an indication carries. */
  ghost function Carried(node: map<Ptr, MemNode>, ind: MacUeDataInd_t): seq<Packet> {
    if ind.rlcData.Some? then PacketsIn(node, ind.rlcData.value.rlcDataArray) else []
  }

  /**
    MacDeMultiplexAndSend up to the hand-over: the pieces of a PDU become an indication in blocks of
    its own; without a failed allocation it carries exactly the packets of the PDU, in order.
   */
  method MacDeMultiplexAndSend(layer: Layer, rnti: nat, mem: seq<byte>, payload: nat, recorded: seq<MacDemux.DemuxData>,
                               sizeInd: nat, sizeData: nat, stale: nat -> RlcUlDataInfo, ghost max: nat)
    returns (ind: Option<MacUeDataInd_t>, ccch: seq<seq<byte>>, ghost lost: bool)
    requires layer.Ready() && |recorded| <= MacDemux.MAX_NUM_CHANNELS
    requires MacDemux.Total(recorded) < UINT16 && MacDemux.Total(recorded) <= max && sizeInd <= max && sizeData <= max
    modifies layer`now, layer.pool`node, layer.pool`pool
    ensures layer.Ready()
    ensures ind == None ==> lost && layer.now == old(layer.now)
    ensures ind != None ==>
              && ind.value.rnti == rnti && IndOk(layer.now, ind.value, max) && Loaded(old(layer.now), layer.now, BlocksOf(ind.value))
              && (ind.value.rlcData.Some? ==> |ind.value.rlcData.value.rlcDataArray| <= MacDemux.MAX_NUM_CHANNELS)
    ensures !lost ==>
              var pieces := MacDemux.Cut(mem, payload, recorded);
              ccch == MacDemux.CcchOf(pieces) && Carried(layer.now.node, ind.value) == PacketsOf(MacDemux.RlcOf(pieces))
    ensures lost ==> AllInUse(layer.now, |Fitting(layer.pool.config, layer.pool.home, max)|)
  {
    hide Sound, Loaded, Partitioned, AtHome, Built, AllInUse, PacketsIn, IndOk, Placed, MacDemux.Cut, MacDemux.CcchOf, MacDemux.RlcOf;
    ccch, lost := [], false;
    ghost var s, blocks := layer.now, |Fitting(layer.pool.config, layer.pool.home, max)|;
    var node := NewBlock(layer, sizeInd, max);
    if node == NULL {
      OutOfBlocks(layer, max);
      return None, ccch, true;
    }
    BuildBegins(s, layer.now, node, max);
    var data, infos: seq<RlcUlDataInfo>, dataPtr: nat := NULL, [], payload;
    ghost var pieces := MacDemux.Cut(mem, payload, recorded);
    PlacedNone(layer.now.node, pieces);
    assert recorded[0..] == recorded;
    for idx := 0 to |recorded|
      invariant layer.Ready() && Built(s, layer.now, node, data, infos, max) && |infos| <= idx
      invariant !lost ==> Placed(layer.now.node, infos, pieces, ccch, MacDemux.Cut(mem, dataPtr, recorded[idx..]))
      invariant lost ==> AllInUse(layer.now, blocks)
    {
      var entry := recorded[idx];
      EntriesFit(recorded, idx);
      assert recorded[idx..][0] == entry && recorded[idx..][1..] == recorded[idx + 1..];
      ghost var u, rest := layer.now, MacDemux.Cut(mem, dataPtr, recorded[idx..]);
      MacDemux.CutNext(mem, dataPtr, recorded[idx..]);
      var bytes := MacDemux.Slice(mem, dataPtr, entry.length);
      if entry.lchId == MacDemux.CCCH {
        var ok := PassCcch(layer, bytes, max);
        if ok {
          LoadedNothing(s, u, layer.now, node, data, infos, max);
          if lost { InUseStays(u, layer.now, {}, blocks); } else { PlacedCcch(u.node, layer.now.node, infos, pieces, ccch, rest); }
          ccch := ccch + [bytes];
        } else {
          lost := true;
          OutOfBlocks(layer, max);
        }
      } else if entry.lchId <= 10 {
        ghost var lostNow;
        ghost var infosBefore := infos;
        data, infos, lostNow := MacDemuxOneToTenLchMsg(layer, entry.lchId, bytes, sizeData, stale(|infos|), s, node, data, infos, max);
        if lost && !lostNow { InUseGrows(u, layer.now, blocks); }
        if !lost && !lostNow { PlacedSdu(u.node, layer.now.node, infosBefore, infos, pieces, ccch, rest); }
        lost := lost || lostNow;
      } else if !lost {
        PlacedOther(layer.now.node, infos, pieces, ccch, rest);
      }
      dataPtr := dataPtr + entry.length;
    }
    assert recorded[|recorded|..] == [];
    if !lost { PlacedAll(layer.now.node, infos, mem, dataPtr, pieces, ccch); }
    ind := Some(Indication(node, rnti, data, infos));
    Finished(s, layer.now, node, rnti, data, infos, max);
  }

  lemma InUseGrows(s: Snapshot, t: Snapshot, n: nat)
    requires LiveIn(s.node) <= LiveIn(t.node) && AllInUse(s, n)
    ensures AllInUse(t, n)
  {
    SubsetSize(LiveIn(s.node), LiveIn(t.node));
  }

  lemma Finished(s: Snapshot, u: Snapshot, ind: Ptr, rnti: nat, data: Ptr, infos: seq<RlcUlDataInfo>, max: nat)
    requires Built(s, u, ind, data, infos, max)
    ensures IndOk(u, Indication(ind, rnti, data, infos), max) && Loaded(s, u, BlocksOf(Indication(ind, rnti, data, infos)))
    ensures Carried(u.node, Indication(ind, rnti, data, infos)) == PacketsIn(u.node, infos)
  {
    BuiltIsOk(s, u, ind, data, infos, rnti, max);
    if data == NULL {
      assert Parts(ind, NULL, []) == {ind, NULL};
    } else {
      assert BlocksOf(Indication(ind, rnti, data, infos)) == Parts(ind, data, infos);
    }
  }

  // ----- One transport block -----

  ghost predicate NothingInFlight(s: Snapshot) {
    forall p :: !InFlightIn(s, p)
  }

  /** The packets of a PDU that was decoded. */
  function PacketsOfPdu(mem: seq<byte>, length: nat): seq<Packet> {
    match MacDemux.Demux(mem, length)
    case None => []
    case Some(pieces) => PacketsOf(MacDemux.RlcOf(pieces))
  }

  /** Blocks a PDU takes on its way: the indication, its array, and a buffer for each entry. */
  const MOST_BLOCKS: nat := 2 + MacDemux.MAX_NUM_CHANNELS

  /** The `blocks` that fit every request are nearly used up by what the layer owns in `t`. */
  ghost predicate Crowded(t: Snapshot, blocks: nat) {
    blocks <= |t.contexts| + 2 * |t.entities| + |t.inbox| + MOST_BLOCKS + MOST_ALLOCS + 2
  }

  /** A PDU with these packets has been received; nothing of it is left in flight. */
  ghost predicate BlockDone(s: Snapshot, t: Snapshot, rnti: nat, packets: seq<Packet>, mac: Option<Report>, lost: bool, blocks: nat) {
    && NothingInFlight(t) && ContextsKept(s, t)
    && (lost ==> Crowded(t, blocks))
    && (!lost ==>
          var o := PacketsThrough(States(s), rnti, DeletedIn(s, rnti), packets, mac);
          States(t) == o.states && PassedOn(t.inbox) == PassedOn(s.inbox) + o.passed)
  }

  lemma NoBlock(s: Snapshot, rnti: nat, mac: Option<Report>, blocks: nat)
    requires NothingInFlight(s)
    ensures BlockDone(s, s, rnti, [], mac, false, blocks)
  {
    assert PassedOn(s.inbox) + [] == PassedOn(s.inbox);
  }

  lemma BuffersAreFew(infos: seq<RlcUlDataInfo>)
    ensures |BuffersOf(infos)| <= |infos|
    decreases |infos|
  {
    if infos == [] {
      assert BuffersOf(infos) == {};
    } else {
      var n := |infos| - 1;
      BuffersAreFew(infos[..n]);
      BuffersMore(infos[..n], infos[n]);
      assert infos[..n] + [infos[n]] == infos;
      SizeOfUnion(BuffersOf(infos[..n]), {infos[n].rlcdataBuffer});
    }
  }

  lemma BlocksAreFew(ind: MacUeDataInd_t)
    requires ind.rlcData.Some? ==> |ind.rlcData.value.rlcDataArray| <= MacDemux.MAX_NUM_CHANNELS
    ensures |BlocksOf(ind)| <= MOST_BLOCKS
  {
    if ind.rlcData.Some? {
      var infos := ind.rlcData.value.rlcDataArray;
      BuffersAreFew(infos);
      SizeOfUnion({ind.rlcData.value.node}, BuffersOf(infos));
      SizeOfUnion({ind.node}, {ind.rlcData.value.node} + BuffersOf(infos));
    } else {
      assert BlocksOf(ind) == {ind.node};
    }
  }

  lemma FlightIsFew(s: Snapshot, u: Snapshot, ind: MacUeDataInd_t)
    requires NothingInFlight(s) && Loaded(s, u, BlocksOf(ind))
    requires ind.rlcData.Some? ==> |ind.rlcData.value.rlcDataArray| <= MacDemux.MAX_NUM_CHANNELS
    ensures |Flight(u)| <= MOST_BLOCKS
  {
    BlocksAreFew(ind);
    SubsetSize(Flight(u), BlocksOf(ind));
  }

  /** A failed allocation of the MAC layer, seen from the end of the indication. */
  lemma CrowdedByMac(u: Snapshot, t: Snapshot, blocks: nat)
    requires Sound(u) && NULL !in u.node && AllInUse(u, blocks) && |Flight(u)| <= MOST_BLOCKS && Heavier(u, t)
    ensures Crowded(t, blocks)
  {
    LiveBlocks(u);
    SubsetSize(Holding(u), u.entities.Keys);
  }

  lemma CrowdedByRlc(u: Snapshot, t: Snapshot, blocks: nat)
    requires Strained(u, t, blocks) && |Flight(u)| <= MOST_BLOCKS
    ensures Crowded(t, blocks)
  {
  }

  /** The indication of a PDU has been processed. */
  lemma BlockIsDone(s: Snapshot, u: Snapshot, t: Snapshot, ind: MacUeDataInd_t, rnti: nat, packets: seq<Packet>,
                    mac: Option<Report>, lost: bool, lost': bool, blocks: nat)
    requires NothingInFlight(s) && Loaded(s, u, BlocksOf(ind)) && ind.rnti == rnti && IndDone(u, t, ind, mac, lost')
    requires !lost ==> Carried(u.node, ind) == packets
    requires lost || lost' ==> Crowded(t, blocks)
    ensures BlockDone(s, t, rnti, packets, mac, lost || lost', blocks)
  {
    forall p
      ensures !InFlightIn(t, p)
    {
      assert InFlightIn(t, p) ==> InFlightIn(u, p) && p !in BlocksOf(ind);
    }
  }

  /** The subheader loop of MacProcessUlSchPdu. */
  method DecodeBlock(mem: seq<byte>, length: nat) returns (ok: bool, payload: nat, recorded: seq<MacDemux.DemuxData>)
    ensures ok == MacDemux.Demux(mem, length).Some?
    ensures ok ==> MacDemux.Demux(mem, length) == Some(MacDemux.Cut(mem, payload, recorded))
    ensures ok ==> MacDemux.Total(recorded) <= length && |recorded| <= MacDemux.MAX_NUM_CHANNELS
  {
    ok, payload, recorded := false, 0, [];
    if length > 0 {
      var decoder := new MacDemux.UlSchDecoder(mem, length);
      decoder.ProcessSubheaders();
      if decoder.successDecodeFlag {
        TotalFits(mem, length);
        ok, payload, recorded := true, decoder.pData, decoder.demuxData[..decoder.pos];
      }
    }
  }

  /** MacProcessUlSchPdu and all that follows from it: decoding, the indication, and the RLC layer. */
  method ReceiveBlock(layer: Layer, rnti: nat, mem: seq<byte>, length: nat, beyond: nat -> byte, mac: Option<Report>,
                      sizeInd: nat, sizeData: nat, stale: nat -> RlcUlDataInfo, ghost max: nat)
    returns (ccch: seq<seq<byte>>, ghost lost: bool)
    requires layer.Ready() && NothingInFlight(layer.now) && AllFit(layer.sizes, max)
    requires length < UINT16 && length <= max && sizeInd <= max && sizeData <= max
    modifies layer, layer.pool, layer.pdcp, layer.Ents(), layer.Rings()
    ensures layer.pool.Valid()
    ensures forall l :: l in layer.channels ==>
              (l in old(layer.channels) && layer.channels[l] == old(layer.channels)[l])
              || (fresh(layer.channels[l].ent) && fresh(layer.channels[l].ring))
    ensures layer.pool.exact ==>
              && layer.Ready()
              && BlockDone(old(layer.now), layer.now, rnti, PacketsOfPdu(mem, length), mac, lost,
                           |Fitting(layer.pool.config, layer.pool.home, max)|)
    ensures !lost && MacDemux.Demux(mem, length).Some? ==> ccch == MacDemux.CcchOf(MacDemux.Demux(mem, length).value)
  {
    hide Sound, Partitioned, AtHome, Loaded, IndOk, IndDone, BlockDone, Crowded, AllInUse, Strained, Heavier, NothingInFlight,
         MacDemux.Cut, MacDemux.Demux, MacDemux.CcchOf, MacDemux.RlcOf, Carried, Fitting, Unfed, Underway;
    ccch, lost := [], false;
    ghost var s, blocks := layer.now, |Fitting(layer.pool.config, layer.pool.home, max)|;
    NoBlock(s, rnti, mac, blocks);
    var ok, payload, recorded := DecodeBlock(mem, length);
    if !ok {
      return;
    }
    var ind;
    ind, ccch, lost := MacDeMultiplexAndSend(layer, rnti, mem, payload, recorded, sizeInd, sizeData, stale, max);
    ghost var u := layer.now;
    layer.pool.Fits(NULL);
    if ind == None {
      NothingSent(s, rnti, PacketsOfPdu(mem, length), mac, blocks);
      return;
    }
    FlightIsFew(s, u, ind.value);
    ghost var lostByRlc := layer.MacUeDataInd(ind.value, beyond, mac, max);
    if layer.pool.exact {
      if lost { CrowdedByMac(u, layer.now, blocks); }
      if lostByRlc { CrowdedByRlc(u, layer.now, blocks); }
      BlockIsDone(s, u, layer.now, ind.value, rnti, PacketsOfPdu(mem, length), mac, lost, lostByRlc, blocks);
    }
    lost := lost || lostByRlc;
  }

  lemma TotalFits(mem: seq<byte>, length: nat)
    requires MacDemux.Parse(mem, MacDemux.Start(length)).Some?
    ensures var d := MacDemux.Parse(mem, MacDemux.Start(length)).value;
            MacDemux.Total(d.recorded) <= length && |d.recorded| <= MacDemux.MAX_NUM_CHANNELS
  {
    MacDemux.ParseAccounts(mem, MacDemux.Start(length));
  }

  lemma NothingSent(s: Snapshot, rnti: nat, packets: seq<Packet>, mac: Option<Report>, blocks: nat)
    requires Sound(s) && NULL !in s.node && NothingInFlight(s) && AllInUse(s, blocks)
    ensures BlockDone(s, s, rnti, packets, mac, true, blocks)
  {
    LiveBlocks(s);
    SubsetSize(Holding(s), s.entities.Keys);
    assert Flight(s) == {};
  }
}
