/**
  The RLC layer: UE contexts, their AM entities, and the packets the MAC layer hands in
  (ulp/src/lteRlc.c:54-188, 249-441).  A UE context is found by its RNTI; the list the layer keeps
  them in has one entry for each RNTI, so it is modelled as a map.
 */
module RlcLayer {
  import opened Bytes
  import opened RlcReassembly
  import opened RlcCodec
  import opened MemPool
  import opened RlcEntity
  import opened RlcPduDecoder
  import opened RlcReceiver
  import opened BlockOwners

  const SRB_2_LCID: nat := 2
  const MAX_LC_ID: nat := 11

  datatype UeContext = UeContext(node: Ptr, deleteFlag: bool)

  datatype Channel = Channel(ent: RxAmEntity, ring: Ring)

  /** The fields of an AM entity at one moment. */
  datatype EntityValue = EntityValue(node: Ptr, rawSn: nat, rawSize: nat, rawData: Ptr, reports: seq<Report>)

  predicate HeldOk(v: EntityValue, node: map<Ptr, MemNode>) {
    v.rawData != NULL ==>
      && v.rawData in node && node[v.rawData].isInUsed
      && v.rawSize == node[v.rawData].length <= |node[v.rawData].data|
  }

  /** The state of the reassembler; a held SDU that is not in its block does not occur (HeldOk). */
  function StateOf(v: EntityValue, node: map<Ptr, MemNode>): State {
    State(if v.rawData != NULL && HeldOk(v, node) then Partial(v.rawSn, Content(node[v.rawData])) else Nothing, v.reports)
  }

  // ----- The layer at one moment -----

  /** A snapshot: pool blocks, their owners, contexts, entities, and what PDCP was given. */
  datatype Snapshot = Snapshot(node: map<Ptr, MemNode>, owner: map<Ptr, Role>, contexts: map<nat, UeContext>,
                               entities: map<Key, EntityValue>, inbox: seq<Delivery>)

  ghost function ContextNodes(s: Snapshot): map<nat, Ptr> {
    map r | r in s.contexts :: s.contexts[r].node
  }

  ghost function EntityNodes(s: Snapshot): map<Key, Ptr> {
    map k | k in s.entities :: s.entities[k].node
  }

  ghost function HeldNodes(s: Snapshot): map<Key, Ptr> {
    map k | k in s.entities :: s.entities[k].rawData
  }

  function Buffers(inbox: seq<Delivery>): seq<Ptr> {
    seq(|inbox|, i requires 0 <= i < |inbox| => inbox[i].buffer)
  }

  /**
    The invariant between packets: the live blocks of the pool are exactly those of the UE contexts,
    AM entities, held SDUs, delivered buffers and packets in flight, each owned once; and every
    delivered buffer still starts with the SDU that was delivered in it.
   */
  ghost predicate Sound(s: Snapshot) {
    Owned(s) && EntitiesOk(s) && InboxOk(s)
  }

  /** What the entities hold. */
  ghost function States(s: Snapshot): map<Key, State> {
    map k | k in s.entities :: StateOf(s.entities[k], s.node)
  }

  ghost predicate InFlightIn(s: Snapshot, p: Ptr) {
    p != NULL && p in s.owner && s.owner[p] == InFlight
  }

  /** Held SDUs and delivered buffers survive when only packets in flight go. */
  lemma KeptSound(s: Snapshot, node: map<Ptr, MemNode>, gone: set<Ptr>)
    requires Sound(s) && Kept(s.node, node, s.owner.Keys - gone)
    requires forall p :: p in gone && p in s.owner ==> s.owner[p] == InFlight
    ensures forall k :: k in s.entities ==>
              HeldOk(s.entities[k], node) && StateOf(s.entities[k], node) == StateOf(s.entities[k], s.node)
    ensures forall i :: 0 <= i < |s.inbox| ==> StartsWith(node, s.inbox[i].buffer, s.inbox[i].bytes)
  {
    forall k | k in s.entities
      ensures HeldOk(s.entities[k], node) && StateOf(s.entities[k], node) == StateOf(s.entities[k], s.node)
    {
      assert HeldNodes(s)[k] == s.entities[k].rawData;
    }
    forall i | 0 <= i < |s.inbox|
      ensures StartsWith(node, s.inbox[i].buffer, s.inbox[i].bytes)
    {
      assert Buffers(s.inbox)[i] == s.inbox[i].buffer;
    }
  }

  /** Live blocks have their owners, and every owner is one of the layer's or a packet in flight. */
  ghost predicate Owned(s: Snapshot) {
    && s.owner.Keys == LiveIn(s.node)
    && Accounted(s.owner, ContextNodes(s), EntityNodes(s), HeldNodes(s), Buffers(s.inbox))
  }

  ghost predicate EntitiesOk(s: Snapshot) {
    forall k :: k in s.entities ==> HeldOk(s.entities[k], s.node) && k.rnti in s.contexts && k.lcId < MAX_LC_ID
  }

  ghost predicate InboxOk(s: Snapshot) {
    forall i :: 0 <= i < |s.inbox| ==> StartsWith(s.node, s.inbox[i].buffer, s.inbox[i].bytes)
  }

  function WithoutPacket(s: Snapshot, node: map<Ptr, MemNode>, buf: Ptr): Snapshot {
    s.(node := node, owner := s.owner - {buf})
  }

  /** A packet in flight is freed. */
  lemma PacketFreed(s: Snapshot, node: map<Ptr, MemNode>, buf: Ptr)
    requires Sound(s) && InFlightIn(s, buf)
    requires LiveIn(node) == LiveIn(s.node) - {buf} && Kept(s.node, node, LiveIn(s.node) - {buf})
    ensures Sound(WithoutPacket(s, node, buf)) && States(WithoutPacket(s, node, buf)) == States(s)
  {
    PacketOwned(s, node, buf);
    KeptSound(s, node, {buf});
    StatesSame(s, WithoutPacket(s, node, buf));
  }

  lemma PacketOwned(s: Snapshot, node: map<Ptr, MemNode>, buf: Ptr)
    requires Owned(s) && InFlightIn(s, buf) && LiveIn(node) == LiveIn(s.node) - {buf}
    ensures Owned(WithoutPacket(s, node, buf))
  {
    InFlightFreed(s.owner, ContextNodes(s), EntityNodes(s), HeldNodes(s), Buffers(s.inbox), buf);
    NodesWithoutPacket(s, node, buf);
  }

  lemma NodesWithoutPacket(s: Snapshot, node: map<Ptr, MemNode>, buf: Ptr)
    ensures var t := WithoutPacket(s, node, buf);
            ContextNodes(t) == ContextNodes(s) && EntityNodes(t) == EntityNodes(s) && HeldNodes(t) == HeldNodes(s)
  {
  }

  function WithPacket(s: Snapshot, node: map<Ptr, MemNode>, p: Ptr): Snapshot {
    s.(node := node, owner := s.owner[p := InFlight])
  }

  /** A new block becomes a packet in flight. */
  lemma PacketMade(s: Snapshot, node: map<Ptr, MemNode>, p: Ptr)
    requires Sound(s) && p != NULL
    requires p !in LiveIn(s.node) && LiveIn(node) == LiveIn(s.node) + {p} && Kept(s.node, node, LiveIn(s.node))
    ensures Sound(WithPacket(s, node, p)) && States(WithPacket(s, node, p)) == States(s)
  {
    NewPacketOwned(s, node, p);
    KeptSound(s, node, {});
    StatesSame(s, WithPacket(s, node, p));
  }

  lemma NewPacketOwned(s: Snapshot, node: map<Ptr, MemNode>, p: Ptr)
    requires Owned(s) && p !in LiveIn(s.node) && LiveIn(node) == LiveIn(s.node) + {p}
    ensures Owned(WithPacket(s, node, p))
  {
    InFlightAdded(s.owner, ContextNodes(s), EntityNodes(s), HeldNodes(s), Buffers(s.inbox), p);
    NodesWithPacket(s, node, p);
  }

  lemma NodesWithPacket(s: Snapshot, node: map<Ptr, MemNode>, p: Ptr)
    ensures var t := WithPacket(s, node, p);
            ContextNodes(t) == ContextNodes(s) && EntityNodes(t) == EntityNodes(s) && HeldNodes(t) == HeldNodes(s)
  {
  }

  /** A packet in flight is filled. */
  lemma PacketFilled(s: Snapshot, node: map<Ptr, MemNode>, p: Ptr)
    requires Sound(s) && InFlightIn(s, p) && LiveIn(node) == LiveIn(s.node) && Kept(s.node, node, LiveIn(s.node) - {p})
    ensures Sound(s.(node := node)) && States(s.(node := node)) == States(s)
  {
    var t := s.(node := node);
    assert ContextNodes(t) == ContextNodes(s) && EntityNodes(t) == EntityNodes(s) && HeldNodes(t) == HeldNodes(s);
    KeptSound(s, node, {p});
    StatesSame(s, t);
  }

  function WithContext(s: Snapshot, node: map<Ptr, MemNode>, r: nat, p: Ptr): Snapshot {
    s.(node := node, owner := s.owner[p := UeBlock(r)], contexts := s.contexts[r := UeContext(p, false)])
  }

  /** A new block becomes a UE context. */
  lemma ContextMade(s: Snapshot, node: map<Ptr, MemNode>, r: nat, p: Ptr)
    requires Sound(s) && r !in s.contexts && p != NULL
    requires p !in LiveIn(s.node) && LiveIn(node) == LiveIn(s.node) + {p} && Kept(s.node, node, LiveIn(s.node))
    ensures Sound(WithContext(s, node, r, p)) && States(WithContext(s, node, r, p)) == States(s)
  {
    ContextOwned(s, node, r, p);
    KeptSound(s, node, {});
    StatesSame(s, WithContext(s, node, r, p));
  }

  lemma ContextOwned(s: Snapshot, node: map<Ptr, MemNode>, r: nat, p: Ptr)
    requires Owned(s) && r !in s.contexts && p !in LiveIn(s.node) && LiveIn(node) == LiveIn(s.node) + {p}
    ensures Owned(WithContext(s, node, r, p))
  {
    ContextAdded(s.owner, ContextNodes(s), EntityNodes(s), HeldNodes(s), Buffers(s.inbox), r, p);
    NodesWithContext(s, node, r, p);
  }

  lemma NodesWithContext(s: Snapshot, node: map<Ptr, MemNode>, r: nat, p: Ptr)
    ensures var t := WithContext(s, node, r, p);
            ContextNodes(t) == ContextNodes(s)[r := p] && EntityNodes(t) == EntityNodes(s) && HeldNodes(t) == HeldNodes(s)
  {
    assert ContextNodes(WithContext(s, node, r, p)) == ContextNodes(s)[r := p];
  }

  function WithEntity(s: Snapshot, node: map<Ptr, MemNode>, k: Key, p: Ptr): Snapshot {
    s.(node := node, owner := s.owner[p := EntityBlock(k)], entities := s.entities[k := EntityValue(p, 0, 0, NULL, [])])
  }

  /** A new block becomes the AM entity of a channel that had none. */
  lemma EntityMade(s: Snapshot, node: map<Ptr, MemNode>, k: Key, p: Ptr)
    requires Sound(s) && k !in s.entities && k.rnti in s.contexts && k.lcId < MAX_LC_ID && p != NULL
    requires p !in LiveIn(s.node) && LiveIn(node) == LiveIn(s.node) + {p} && Kept(s.node, node, LiveIn(s.node))
    ensures Sound(WithEntity(s, node, k, p)) && States(WithEntity(s, node, k, p)) == States(s)[k := Initial]
  {
    EntityOwned(s, node, k, p);
    KeptSound(s, node, {});
    StatesSet(s, WithEntity(s, node, k, p), k, EntityValue(p, 0, 0, NULL, []));
  }

  lemma EntityOwned(s: Snapshot, node: map<Ptr, MemNode>, k: Key, p: Ptr)
    requires Owned(s) && k !in s.entities && p !in LiveIn(s.node) && LiveIn(node) == LiveIn(s.node) + {p}
    ensures Owned(WithEntity(s, node, k, p))
  {
    EntityAdded(s.owner, ContextNodes(s), EntityNodes(s), HeldNodes(s), Buffers(s.inbox), k, p);
    NodesWithEntity(s, node, k, p);
  }

  lemma NodesWithEntity(s: Snapshot, node: map<Ptr, MemNode>, k: Key, p: Ptr)
    ensures var t := WithEntity(s, node, k, p);
            && ContextNodes(t) == ContextNodes(s) && EntityNodes(t) == EntityNodes(s)[k := p]
            && HeldNodes(t) == HeldNodes(s)[k := NULL]
  {
    var t := WithEntity(s, node, k, p);
    assert EntityNodes(t) == EntityNodes(s)[k := p] && HeldNodes(t) == HeldNodes(s)[k := NULL];
  }

  function HeldBlocksOf(v: EntityValue): set<Ptr> {
    if v.rawData == NULL then {} else {v.rawData}
  }

  ghost function WithPdu(s: Snapshot, node: map<Ptr, MemNode>, k: Key, others: set<Ptr>, v: EntityValue,
                         now: seq<Delivery>, given: set<Ptr>): Snapshot {
    s.(node := node, owner := AfterPdu(s.owner, others, k, v.rawData, given),
       entities := s.entities[k := v], inbox := s.inbox + now)
  }

  /** The entity of channel `k` has processed the packet `buf`; it is `v` now. */
  lemma PduDone(s: Snapshot, node: map<Ptr, MemNode>, k: Key, buf: Ptr, others: set<Ptr>, v: EntityValue,
                now: seq<Delivery>, sdus: seq<Sdu>, given: set<Ptr>)
    requires Sound(s) && k in s.entities && InFlightIn(s, buf)
    requires others == s.owner.Keys - {buf} - HeldBlocksOf(s.entities[k])
    requires v.node == s.entities[k].node && HeldOk(v, node)
    requires LiveIn(node) == others + given + HeldBlocksOf(v) && others + given !! HeldBlocksOf(v) && others !! given
    requires Kept(s.node, node, others) && HandedUp(node, k.rnti, k.lcId, now, sdus, given)
    ensures var t := WithPdu(s, node, k, others, v, now, given);
            Sound(t) && States(t) == States(s)[k := StateOf(v, node)]
  {
    PduOwned(s, node, k, buf, others, v, now, sdus, given);
    OthersUntouched(s, node, k, buf, others);
    PduHandedUp(s.inbox, node, k, now, sdus, given);
    StatesSet(s, WithPdu(s, node, k, others, v, now, given), k, v);
  }

  /** Only the entity of channel `k` was set, to `v`. */
  lemma StatesSet(s: Snapshot, t: Snapshot, k: Key, v: EntityValue)
    requires EntitiesOk(s) && t.entities == s.entities[k := v] && t.contexts == s.contexts
    requires forall l :: l in s.entities && l != k ==>
               HeldOk(s.entities[l], t.node) && StateOf(s.entities[l], t.node) == StateOf(s.entities[l], s.node)
    requires HeldOk(v, t.node) && k.rnti in s.contexts && k.lcId < MAX_LC_ID
    ensures EntitiesOk(t) && States(t) == States(s)[k := StateOf(v, t.node)]
  {
  }

  lemma StatesSame(s: Snapshot, t: Snapshot)
    requires EntitiesOk(s) && t.entities == s.entities && s.contexts.Keys <= t.contexts.Keys
    requires forall l :: l in s.entities ==>
               HeldOk(s.entities[l], t.node) && StateOf(s.entities[l], t.node) == StateOf(s.entities[l], s.node)
    ensures EntitiesOk(t) && States(t) == States(s)
  {
  }

  lemma PduHandedUp(inbox: seq<Delivery>, node: map<Ptr, MemNode>, k: Key, now: seq<Delivery>, sdus: seq<Sdu>, given: set<Ptr>)
    requires forall i :: 0 <= i < |inbox| ==> StartsWith(node, inbox[i].buffer, inbox[i].bytes)
    requires HandedUp(node, k.rnti, k.lcId, now, sdus, given)
    ensures forall i :: 0 <= i < |inbox + now| ==> StartsWith(node, (inbox + now)[i].buffer, (inbox + now)[i].bytes)
  {
    forall i | 0 <= i < |inbox + now|
      ensures StartsWith(node, (inbox + now)[i].buffer, (inbox + now)[i].bytes)
    {
      if i >= |inbox| { assert (inbox + now)[i] == now[i - |inbox|]; }
    }
  }

  lemma PduOwned(s: Snapshot, node: map<Ptr, MemNode>, k: Key, buf: Ptr, others: set<Ptr>, v: EntityValue,
                 now: seq<Delivery>, sdus: seq<Sdu>, given: set<Ptr>)
    requires Owned(s) && k in s.entities && InFlightIn(s, buf)
    requires others == s.owner.Keys - {buf} - HeldBlocksOf(s.entities[k])
    requires v.node == s.entities[k].node
    requires LiveIn(node) == others + given + HeldBlocksOf(v) && others + given !! HeldBlocksOf(v) && others !! given
    requires HandedUp(node, k.rnti, k.lcId, now, sdus, given)
    ensures Owned(WithPdu(s, node, k, others, v, now, given))
  {
    GivenAre(node, k, now, sdus, given);
    PduAccounted(s.owner, ContextNodes(s), EntityNodes(s), HeldNodes(s), Buffers(s.inbox), k, buf, others, v.rawData, given,
                 Buffers(now));
    NodesWithPdu(s, node, k, others, v, now, given);
    OwnersAreLive(s.owner, others, k, v.rawData, given, LiveIn(node));
  }

  lemma NodesWithPdu(s: Snapshot, node: map<Ptr, MemNode>, k: Key, others: set<Ptr>, v: EntityValue, now: seq<Delivery>, given: set<Ptr>)
    requires k in s.entities && v.node == s.entities[k].node
    ensures var t := WithPdu(s, node, k, others, v, now, given);
            && ContextNodes(t) == ContextNodes(s) && EntityNodes(t) == EntityNodes(s)
            && HeldNodes(t) == HeldNodes(s)[k := v.rawData] && Buffers(t.inbox) == Buffers(s.inbox) + Buffers(now)
  {
    var t := WithPdu(s, node, k, others, v, now, given);
    assert HeldNodes(t) == HeldNodes(s)[k := v.rawData];
  }

  lemma OwnersAreLive(owner: map<Ptr, Role>, others: set<Ptr>, k: Key, h: Ptr, given: set<Ptr>, live: set<Ptr>)
    requires live == others + given + (if h == NULL then {} else {h})
    ensures AfterPdu(owner, others, k, h, given).Keys == live
  {
  }

  lemma GivenAre(node: map<Ptr, MemNode>, k: Key, now: seq<Delivery>, sdus: seq<Sdu>, given: set<Ptr>)
    requires HandedUp(node, k.rnti, k.lcId, now, sdus, given)
    ensures given == set i | 0 <= i < |Buffers(now)| :: Buffers(now)[i]
    ensures forall i, j :: 0 <= i < j < |Buffers(now)| ==> Buffers(now)[i] != Buffers(now)[j]
  {
    var more := Buffers(now);
    forall p | p in given
      ensures exists i :: 0 <= i < |more| && more[i] == p
    {
      var i :| 0 <= i < |now| && now[i].buffer == p;
      assert more[i] == p;
    }
    forall i | 0 <= i < |more|
      ensures more[i] in given
    {
      assert more[i] == now[i].buffer;
    }
  }

  lemma OthersUntouched(s: Snapshot, node: map<Ptr, MemNode>, k: Key, buf: Ptr, others: set<Ptr>)
    requires Sound(s) && k in s.entities && InFlightIn(s, buf)
    requires others == s.owner.Keys - {buf} - HeldBlocksOf(s.entities[k]) && Kept(s.node, node, others)
    ensures forall l :: l in s.entities && l != k ==>
              HeldOk(s.entities[l], node) && StateOf(s.entities[l], node) == StateOf(s.entities[l], s.node)
    ensures forall i :: 0 <= i < |s.inbox| ==> StartsWith(node, s.inbox[i].buffer, s.inbox[i].bytes)
  {
    forall l | l in s.entities && l != k
      ensures HeldOk(s.entities[l], node) && StateOf(s.entities[l], node) == StateOf(s.entities[l], s.node)
    {
      assert HeldNodes(s)[l] == s.entities[l].rawData && HeldNodes(s)[k] == s.entities[k].rawData;
    }
    forall i | 0 <= i < |s.inbox|
      ensures StartsWith(node, s.inbox[i].buffer, s.inbox[i].bytes)
    {
      assert Buffers(s.inbox)[i] == s.inbox[i].buffer && HeldNodes(s)[k] == s.entities[k].rawData;
    }
  }

  // ----- Deletion -----

  /** Blocks that are neither a delivered buffer nor the held SDU of a channel other than `k`. */
  ghost predicate Expendable(s: Snapshot, gone: set<Ptr>, k: Key) {
    forall p :: p in gone && p in s.owner ==> s.owner[p] != Handed && (s.owner[p].HeldBlock? ==> s.owner[p] == HeldBlock(k))
  }

  lemma KeptBut(s: Snapshot, node: map<Ptr, MemNode>, gone: set<Ptr>, k: Key)
    requires Sound(s) && Kept(s.node, node, LiveIn(s.node) - gone) && Expendable(s, gone, k)
    ensures forall l :: l in s.entities && l != k ==>
              HeldOk(s.entities[l], node) && StateOf(s.entities[l], node) == StateOf(s.entities[l], s.node)
    ensures forall i :: 0 <= i < |s.inbox| ==> StartsWith(node, s.inbox[i].buffer, s.inbox[i].bytes)
  {
    forall l | l in s.entities && l != k
      ensures HeldOk(s.entities[l], node) && StateOf(s.entities[l], node) == StateOf(s.entities[l], s.node)
    {
      assert HeldNodes(s)[l] == s.entities[l].rawData;
    }
    forall i | 0 <= i < |s.inbox|
      ensures StartsWith(node, s.inbox[i].buffer, s.inbox[i].bytes)
    {
      assert Buffers(s.inbox)[i] == s.inbox[i].buffer;
    }
  }

  function WithoutEntity(s: Snapshot, node: map<Ptr, MemNode>, k: Key): Snapshot
    requires k in s.entities
  {
    s.(node := node, owner := s.owner - {s.entities[k].node, s.entities[k].rawData}, entities := s.entities - {k})
  }

  /** The entity of channel `k` is deleted, with the SDU it holds. */
  lemma EntityGone(s: Snapshot, node: map<Ptr, MemNode>, k: Key)
    requires Sound(s) && k in s.entities && NULL !in s.owner
    requires var gone := {s.entities[k].node, s.entities[k].rawData};
             LiveIn(node) == LiveIn(s.node) - gone && Kept(s.node, node, LiveIn(s.node) - gone)
    ensures Sound(WithoutEntity(s, node, k)) && States(WithoutEntity(s, node, k)) == States(s) - {k}
  {
    hide Accounted;
    EntityUnowned(s, node, k);
    EntityExpendable(s, k);
    KeptBut(s, node, {s.entities[k].node, s.entities[k].rawData}, k);
    StatesWithout(s, WithoutEntity(s, node, k), k);
  }

  lemma EntityExpendable(s: Snapshot, k: Key)
    requires Owned(s) && k in s.entities && NULL !in s.owner
    ensures Expendable(s, {s.entities[k].node, s.entities[k].rawData}, k)
  {
    assert EntityNodes(s)[k] == s.entities[k].node && HeldNodes(s)[k] == s.entities[k].rawData;
  }

  lemma EntityUnowned(s: Snapshot, node: map<Ptr, MemNode>, k: Key)
    requires Owned(s) && k in s.entities && NULL !in s.owner
    requires LiveIn(node) == LiveIn(s.node) - {s.entities[k].node, s.entities[k].rawData}
    ensures Owned(WithoutEntity(s, node, k))
  {
    EntityRemoved(s.owner, ContextNodes(s), EntityNodes(s), HeldNodes(s), Buffers(s.inbox), k);
    NodesWithoutEntity(s, node, k);
  }

  lemma NodesWithoutEntity(s: Snapshot, node: map<Ptr, MemNode>, k: Key)
    requires k in s.entities
    ensures var t := WithoutEntity(s, node, k);
            && ContextNodes(t) == ContextNodes(s) && EntityNodes(t) == EntityNodes(s) - {k}
            && HeldNodes(t) == HeldNodes(s) - {k}
  {
  }

  lemma StatesWithout(s: Snapshot, t: Snapshot, k: Key)
    requires EntitiesOk(s) && t.entities == s.entities - {k} && t.contexts == s.contexts
    requires forall l :: l in s.entities && l != k ==>
               HeldOk(s.entities[l], t.node) && StateOf(s.entities[l], t.node) == StateOf(s.entities[l], s.node)
    ensures EntitiesOk(t) && States(t) == States(s) - {k}
  {
  }

  function WithoutContext(s: Snapshot, node: map<Ptr, MemNode>, r: nat): Snapshot
    requires r in s.contexts
  {
    s.(node := node, owner := s.owner - {s.contexts[r].node}, contexts := s.contexts - {r})
  }

  /** A UE context without entities is deleted. */
  lemma ContextGone(s: Snapshot, node: map<Ptr, MemNode>, r: nat)
    requires Sound(s) && r in s.contexts && forall k :: k in s.entities ==> k.rnti != r
    requires var p := s.contexts[r].node;
             LiveIn(node) == LiveIn(s.node) - {p} && Kept(s.node, node, LiveIn(s.node) - {p})
    ensures Sound(WithoutContext(s, node, r)) && States(WithoutContext(s, node, r)) == States(s)
  {
    hide Accounted;
    var t, nobody := WithoutContext(s, node, r), Key(r, 0);
    ContextUnowned(s, node, r);
    ContextExpendable(s, r, nobody);
    KeptBut(s, node, {s.contexts[r].node}, nobody);
    assert States(t) == States(s);
  }

  lemma ContextExpendable(s: Snapshot, r: nat, k: Key)
    requires Owned(s) && r in s.contexts
    ensures Expendable(s, {s.contexts[r].node}, k)
  {
    assert ContextNodes(s)[r] == s.contexts[r].node;
  }

  lemma ContextUnowned(s: Snapshot, node: map<Ptr, MemNode>, r: nat)
    requires Owned(s) && r in s.contexts && LiveIn(node) == LiveIn(s.node) - {s.contexts[r].node}
    ensures Owned(WithoutContext(s, node, r))
  {
    ContextRemoved(s.owner, ContextNodes(s), EntityNodes(s), HeldNodes(s), Buffers(s.inbox), r);
    NodesWithoutContext(s, node, r);
  }

  lemma NodesWithoutContext(s: Snapshot, node: map<Ptr, MemNode>, r: nat)
    requires r in s.contexts
    ensures var t := WithoutContext(s, node, r);
            ContextNodes(t) == ContextNodes(s) - {r} && EntityNodes(t) == EntityNodes(s) && HeldNodes(t) == HeldNodes(s)
  {
  }

  // ----- How many blocks are live -----

  /** The channels with an unfinished SDU. */
  ghost function Holding(s: Snapshot): set<Key> {
    set k | k in s.entities && s.entities[k].rawData != NULL
  }

  ghost function Flight(s: Snapshot): set<Ptr> {
    set p | p in s.owner && InFlightIn(s, p)
  }

  /** Nothing is leaked: every live block is accounted for, once. */
  lemma LiveBlocks(s: Snapshot)
    requires Sound(s) && NULL !in s.node
    ensures |LiveIn(s.node)| == |s.contexts| + |s.entities| + |Holding(s)| + |s.inbox| + |Flight(s)|
  {
    hide Accounted, EntitiesOk, InboxOk;
    BlocksAddUp(s.owner, ContextNodes(s), EntityNodes(s), HeldNodes(s), Buffers(s.inbox));
    SameKeysSameSize(ContextNodes(s), s.contexts);
    SameKeysSameSize(EntityNodes(s), s.entities);
    HeldKeys(s);
    FlightIsKind(s);
  }

  lemma SameKeysSameSize<K, A, B>(a: map<K, A>, b: map<K, B>)
    requires a.Keys == b.Keys
    ensures |a| == |b|
  {
    assert |a| == |a.Keys| && |b| == |b.Keys|;
  }

  lemma HeldKeys(s: Snapshot)
    ensures |HeldOnly(HeldNodes(s))| == |Holding(s)|
  {
    assert HeldOnly(HeldNodes(s)).Keys == Holding(s);
    assert |HeldOnly(HeldNodes(s))| == |HeldOnly(HeldNodes(s)).Keys|;
  }

  lemma FlightIsKind(s: Snapshot)
    requires NULL !in s.owner
    ensures OfKind(s.owner, InFlightKind) == Flight(s)
  {
  }
}
