/**
  The RLC layer as an object: it receives what the MAC layer decoded for a UE and runs the AM
  entities (ulp/src/lteRlc.c:54-188, 249-441).  The blocks of its structures are named in `owner`.
  A run is followed up to the first MemJoin that is not exact (MemPool.JoinIsExact).
 */
module RlcStack {
  import opened Bytes
  import opened RlcReassembly
  import opened RlcCodec
  import opened MemPool
  import opened RlcEntity
  import opened RlcPduDecoder
  import opened RlcReceiver
  import opened BlockOwners
  import opened RlcLayer

  datatype RlcUlDataInfo = RlcUlDataInfo(rlcdataBuffer: Ptr, length: nat, lcId: nat)

  datatype RlcUlData = RlcUlData(node: Ptr, rlcDataArray: seq<RlcUlDataInfo>)

  datatype MacUeDataInd_t = MacUeDataInd_t(node: Ptr, rnti: nat, rlcData: Option<RlcUlData>)

  // ----- What a packet does -----

  function StateIn(states: map<Key, State>, k: Key): State {
    if k in states then states[k] else Initial
  }

  /** An SDU handed up and the channel it came from. */
  datatype Passed = Passed(key: Key, sdu: Sdu)

  function Tagged(k: Key, sdus: seq<Sdu>): seq<Passed> {
    seq(|sdus|, i requires 0 <= i < |sdus| => Passed(k, sdus[i]))
  }

  /** What the buffers handed to PDCP hold. */
  function PassedOn(inbox: seq<Delivery>): seq<Passed> {
    seq(|inbox|, i requires 0 <= i < |inbox| =>
      Passed(Key(inbox[i].rnti, inbox[i].lcId), Sdu(inbox[i].bytes, inbox[i].reports)))
  }

  /** Of the packets in flight exactly `buf` is gone; the others are untouched. */
  ghost predicate Consumed(s: Snapshot, t: Snapshot, buf: Ptr) {
    && (forall p :: InFlightIn(t, p) <==> InFlightIn(s, p) && p != buf)
    && (forall p :: InFlightIn(t, p) ==> p in s.node && p in t.node && t.node[p] == s.node[p])
  }

  /** The packet `b` in block `buf` went through the AM entity of channel `k`. */
  ghost predicate Fed(s: Snapshot, t: Snapshot, k: Key, buf: Ptr, b: seq<byte>, mac: Option<Report>) {
    var o := ReceiveBytes(StateIn(States(s), k), b, mac);
    && Consumed(s, t, buf)
    && States(t) == States(s)[k := o.state]
    && PassedOn(t.inbox) == PassedOn(s.inbox) + Tagged(k, o.delivered)
  }

  lemma WithPduConsumes(s: Snapshot, node: map<Ptr, MemNode>, k: Key, buf: Ptr, others: set<Ptr>, v: EntityValue,
                        now: seq<Delivery>, given: set<Ptr>)
    requires Owned(s) && k in s.entities && InFlightIn(s, buf)
    requires others == s.owner.Keys - {buf} - HeldBlocksOf(s.entities[k]) && others !! given && Kept(s.node, node, others)
    ensures Consumed(s, WithPdu(s, node, k, others, v, now, given), buf)
  {
    assert HeldNodes(s)[k] == s.entities[k].rawData;
  }

  lemma PassedOnMore(inbox: seq<Delivery>, node: map<Ptr, MemNode>, k: Key, now: seq<Delivery>, sdus: seq<Sdu>, given: set<Ptr>)
    requires HandedUp(node, k.rnti, k.lcId, now, sdus, given)
    ensures PassedOn(inbox + now) == PassedOn(inbox) + Tagged(k, sdus)
  {
    forall i | 0 <= i < |now|
      ensures now[i] == Delivery(k.rnti, k.lcId, now[i].buffer, |sdus[i].data|, sdus[i].data, sdus[i].reports)
    {
    }
  }

  lemma EntityStands(s: Snapshot, k: Key, buf: Ptr)
    requires Sound(s) && k in s.entities && InFlightIn(s, buf)
    ensures LiveIn(s.node) == (s.owner.Keys - {buf} - HeldBlocksOf(s.entities[k])) + {buf} + HeldBlocksOf(s.entities[k])
    ensures buf !in HeldBlocksOf(s.entities[k])
  {
    assert HeldNodes(s)[k] == s.entities[k].rawData;
  }

  /** What `Feed` needs to know of the entity's new value `v` to follow the snapshot. */
  ghost predicate Moved(s: Snapshot, node: map<Ptr, MemNode>, k: Key, buf: Ptr, others: set<Ptr>, v: EntityValue, given: set<Ptr>) {
    && k in s.entities && InFlightIn(s, buf)
    && others == s.owner.Keys - {buf} - HeldBlocksOf(s.entities[k])
    && v.node == s.entities[k].node && RlcLayer.HeldOk(v, node)
    && LiveIn(node) == others + given + HeldBlocksOf(v) && others + given !! HeldBlocksOf(v) && others !! given
    && Kept(s.node, node, others)
  }

  lemma PduFed(s: Snapshot, t: Snapshot, k: Key, buf: Ptr, b: seq<byte>, mac: Option<Report>,
               others: set<Ptr>, v: EntityValue, now: seq<Delivery>, given: set<Ptr>)
    requires Sound(s) && Moved(s, t.node, k, buf, others, v, given) && t == WithPdu(s, t.node, k, others, v, now, given)
    requires var o := ReceiveBytes(States(s)[k], b, mac);
             StateOf(v, t.node) == o.state && HandedUp(t.node, k.rnti, k.lcId, now, o.delivered, given)
    ensures Sound(t) && Fed(s, t, k, buf, b, mac)
  {
    var o := ReceiveBytes(States(s)[k], b, mac);
    PduDone(s, t.node, k, buf, others, v, now, o.delivered, given);
    WithPduConsumes(s, t.node, k, buf, others, v, now, given);
    PassedOnMore(s.inbox, t.node, k, now, o.delivered, given);
  }

  /** Nothing came of the packet in block `buf` but that the block is gone. */
  ghost predicate Unfed(s: Snapshot, t: Snapshot, buf: Ptr) {
    Consumed(s, t, buf) && States(t) == States(s) && t.inbox == s.inbox
  }

  lemma PduLost(s: Snapshot, t: Snapshot, k: Key, buf: Ptr, others: set<Ptr>, v: EntityValue, now: seq<Delivery>, given: set<Ptr>)
    requires Sound(s) && Moved(s, t.node, k, buf, others, v, given) && t == WithPdu(s, t.node, k, others, v, now, given)
    requires StateOf(v, t.node) == States(s)[k] && HandedUp(t.node, k.rnti, k.lcId, now, [], given)
    ensures Sound(t) && Unfed(s, t, buf)
  {
    PduDone(s, t.node, k, buf, others, v, now, [], given);
    WithPduConsumes(s, t.node, k, buf, others, v, now, given);
    SetToItself(States(s), k);
    NothingAdded(s.inbox, now);
  }

  lemma SetToItself(m: map<Key, State>, k: Key)
    requires k in m
    ensures m[k := m[k]] == m
  {
  }

  lemma Rejoined(inbox: seq<Delivery>, inbox': seq<Delivery>)
    requires inbox <= inbox'
    ensures inbox + inbox'[|inbox|..] == inbox'
  {
  }

  lemma NothingAdded(inbox: seq<Delivery>, now: seq<Delivery>)
    requires |now| == 0
    ensures inbox + now == inbox
  {
  }

  ghost predicate DeletedIn(s: Snapshot, r: nat) {
    r in s.contexts && s.contexts[r].deleteFlag
  }

  lemma DroppedIsUnfed(s: Snapshot, node: map<Ptr, MemNode>, buf: Ptr)
    requires Sound(s) && InFlightIn(s, buf)
    requires LiveIn(node) == LiveIn(s.node) - {buf} && Kept(s.node, node, LiveIn(s.node) - {buf})
    ensures Sound(WithoutPacket(s, node, buf)) && Unfed(s, WithoutPacket(s, node, buf), buf)
  {
    PacketFreed(s, node, buf);
  }

  lemma FlightIsLive(s: Snapshot, buf: Ptr)
    requires Sound(s) && InFlightIn(s, buf)
    ensures buf in LiveIn(s.node)
  {
  }

  lemma NothingDropped(s: Snapshot)
    requires Sound(s)
    ensures Unfed(s, s, NULL)
  {
  }

  /** A channel got its entity, nothing else changed. */
  ghost predicate Started(s: Snapshot, t: Snapshot, k: Key) {
    k !in s.entities && Consumed(s, t, NULL) && States(t) == States(s)[k := Initial] && t.inbox == s.inbox && t.contexts == s.contexts
  }

  lemma EntityIsStarted(s: Snapshot, node: map<Ptr, MemNode>, k: Key, p: Ptr)
    requires Sound(s) && k !in s.entities && k.rnti in s.contexts && k.lcId < MAX_LC_ID && p != NULL
    requires p !in LiveIn(s.node) && LiveIn(node) == LiveIn(s.node) + {p} && Kept(s.node, node, LiveIn(s.node))
    ensures Sound(WithEntity(s, node, k, p)) && Started(s, WithEntity(s, node, k, p), k)
  {
    EntityMade(s, node, k, p);
  }

  /** What became of the channels, and what went up. */
  datatype Traffic = Traffic(states: map<Key, State>, passed: seq<Passed>)

  /** The packet is freed before it reaches an AM entity. */
  predicate Refused(lcId: nat, deleted: bool, b: seq<byte>) {
    lcId > SRB_2_LCID || DecodeHeader(b) == None || DecodeHeader(b).value.dc == 0 || deleted
  }

  function PacketThrough(states: map<Key, State>, k: Key, deleted: bool, b: seq<byte>, mac: Option<Report>): Traffic {
    if Refused(k.lcId, deleted, b) then Traffic(states, [])
    else
      var o := ReceiveBytes(StateIn(states, k), b, mac);
      Traffic(states[k := o.state], Tagged(k, o.delivered))
  }

  ghost predicate ContextsKept(s: Snapshot, t: Snapshot) {
    s.contexts.Keys <= t.contexts.Keys && forall r :: DeletedIn(t, r) <==> DeletedIn(s, r)
  }

  /** The entity of channel `k` is as before, or is new. */
  ghost predicate AsBefore(s: Snapshot, t: Snapshot, k: Key) {
    && PassedOn(t.inbox) == PassedOn(s.inbox) && ContextsKept(s, t)
    && (States(t) == States(s) || (k !in s.entities && States(t) == States(s)[k := Initial]))
  }

  /** The packet `b` in block `buf` was processed, or `lost` on the way. */
  ghost predicate PacketDone(s: Snapshot, t: Snapshot, k: Key, buf: Ptr, b: seq<byte>, mac: Option<Report>, lost: bool) {
    var o := PacketThrough(States(s), k, DeletedIn(s, k.rnti), b, mac);
    && Consumed(s, t, buf)
    && if lost then AsBefore(s, t, k)
       else ContextsKept(s, t) && States(t) == o.states && PassedOn(t.inbox) == PassedOn(s.inbox) + o.passed
  }

  /** Only a UE context may be new. */
  ghost predicate SameTraffic(s: Snapshot, t: Snapshot) {
    Unfed(s, t, NULL) && ContextsKept(s, t)
  }

  lemma NothingFound(s: Snapshot)
    requires Sound(s)
    ensures SameTraffic(s, s)
  {
  }

  lemma ContextIsFound(s: Snapshot, node: map<Ptr, MemNode>, r: nat, p: Ptr)
    requires Sound(s) && r !in s.contexts && p != NULL
    requires p !in LiveIn(s.node) && LiveIn(node) == LiveIn(s.node) + {p} && Kept(s.node, node, LiveIn(s.node))
    ensures Sound(WithContext(s, node, r, p)) && SameTraffic(s, WithContext(s, node, r, p))
  {
    ContextMade(s, node, r, p);
  }

  lemma FoundSoFar(s: Snapshot, u: Snapshot, k: Key)
    requires SameTraffic(s, u)
    ensures Consumed(s, u, NULL) && AsBefore(s, u, k)
  {
  }

  lemma EntityFound(s: Snapshot, u: Snapshot, v: Snapshot, k: Key)
    requires SameTraffic(s, u) && Started(u, v, k)
    ensures Consumed(s, v, NULL) && AsBefore(s, v, k)
  {
    assert k !in States(u) && States(u) == States(s);
  }

  lemma InFlightStays(s: Snapshot, u: Snapshot, buf: Ptr)
    requires Consumed(s, u, NULL) && InFlightIn(s, buf)
    ensures InFlightIn(u, buf) && buf in u.node && buf in s.node && u.node[buf] == s.node[buf]
  {
  }

  lemma PacketRefused(s: Snapshot, t: Snapshot, k: Key, buf: Ptr, b: seq<byte>, mac: Option<Report>)
    requires Unfed(s, t, buf) && t.contexts == s.contexts && Refused(k.lcId, DeletedIn(s, k.rnti), b)
    ensures PacketDone(s, t, k, buf, b, mac, false)
  {
  }

  lemma PacketLost(s: Snapshot, u: Snapshot, t: Snapshot, k: Key, buf: Ptr, b: seq<byte>, mac: Option<Report>)
    requires Consumed(s, u, NULL) && AsBefore(s, u, k) && Unfed(u, t, buf) && t.contexts == u.contexts
    ensures PacketDone(s, t, k, buf, b, mac, true)
  {
  }

  lemma PacketFed(s: Snapshot, u: Snapshot, t: Snapshot, k: Key, buf: Ptr, b: seq<byte>, mac: Option<Report>)
    requires Consumed(s, u, NULL) && AsBefore(s, u, k) && Fed(u, t, k, buf, b, mac) && t.contexts == u.contexts
    requires !Refused(k.lcId, DeletedIn(s, k.rnti), b)
    ensures PacketDone(s, t, k, buf, b, mac, false)
  {
    assert StateIn(States(u), k) == StateIn(States(s), k);
    var o := ReceiveBytes(StateIn(States(s), k), b, mac);
    assert States(t) == States(s)[k := o.state];
  }

  ghost function ValueOf(ent: RxAmEntity): EntityValue
    reads ent
  {
    EntityValue(ent.node, ent.rawSn, ent.rawSize, ent.rawData, ent.reports)
  }

  /** The bytes of a packet; a packet whose buffer could not be allocated has none. */
  function BytesOf(node: map<Ptr, MemNode>, buf: Ptr): seq<byte> {
    if buf != NULL && buf in node && node[buf].length <= |node[buf].data| then Content(node[buf]) else []
  }

  /** `info` describes a buffer in flight, or has none. */
  ghost predicate InfoOk(s: Snapshot, info: RlcUlDataInfo, max: nat) {
    info.rlcdataBuffer != NULL ==>
      && InFlightIn(s, info.rlcdataBuffer) && info.rlcdataBuffer in s.node
      && info.length == s.node[info.rlcdataBuffer].length <= |s.node[info.rlcdataBuffer].data|
      && info.length <= max
  }

  predicate AllFit(sizes: Sizes, max: nat) {
    && sizes.ueContext <= max && sizes.amEntity <= max
    && sizes.amdPdu <= max && sizes.segment <= max && sizes.dfe <= max
  }

  lemma BytesOfInfo(s: Snapshot, info: RlcUlDataInfo, max: nat)
    requires Sound(s) && InfoOk(s, info, max)
    ensures info.rlcdataBuffer == NULL ==> BytesOf(s.node, info.rlcdataBuffer) == []
    ensures info.rlcdataBuffer != NULL ==>
              && info.rlcdataBuffer in s.node && info.length <= |s.node[info.rlcdataBuffer].data|
              && BytesOf(s.node, info.rlcdataBuffer) == s.node[info.rlcdataBuffer].data[..info.length]
  {
  }

  // ----- All packets of one indication -----

  datatype Packet = Packet(lcId: nat, bytes: seq<byte>)

  /** The packets of UE `rnti`, one after the other. */
  function PacketsThrough(states: map<Key, State>, rnti: nat, deleted: bool, packets: seq<Packet>, mac: Option<Report>): Traffic {
    if packets == [] then Traffic(states, [])
    else
      var before := PacketsThrough(states, rnti, deleted, packets[..|packets| - 1], mac);
      var last := packets[|packets| - 1];
      var o := PacketThrough(before.states, Key(rnti, last.lcId), deleted, last.bytes, mac);
      Traffic(o.states, before.passed + o.passed)
  }

  ghost function PacketsIn(node: map<Ptr, MemNode>, infos: seq<RlcUlDataInfo>): seq<Packet> {
    seq(|infos|, i requires 0 <= i < |infos| => Packet(infos[i].lcId, BytesOf(node, infos[i].rlcdataBuffer)))
  }

  /** The buffers and blocks of an indication are in flight, and all different. */
  ghost predicate IndOk(s: Snapshot, ind: MacUeDataInd_t, max: nat) {
    && InFlightIn(s, ind.node)
    && (ind.rlcData.Some? ==>
          var data := ind.rlcData.value;
          && InFlightIn(s, data.node) && data.node != ind.node
          && (forall i :: 0 <= i < |data.rlcDataArray| ==>
                InfoOk(s, data.rlcDataArray[i], max) && data.rlcDataArray[i].rlcdataBuffer !in {ind.node, data.node})
          && BuffersDiffer(data.rlcDataArray))
  }

  ghost predicate BuffersDiffer(infos: seq<RlcUlDataInfo>) {
    forall i, j :: 0 <= i < j < |infos| ==>
      infos[i].rlcdataBuffer != infos[j].rlcdataBuffer || infos[i].rlcdataBuffer == NULL
  }

  ghost function BuffersOf(infos: seq<RlcUlDataInfo>): set<Ptr> {
    set info | info in infos :: info.rlcdataBuffer
  }

  ghost function BlocksOf(ind: MacUeDataInd_t): set<Ptr> {
    {ind.node} + if ind.rlcData.Some? then {ind.rlcData.value.node} + BuffersOf(ind.rlcData.value.rlcDataArray) else {}
  }

  /** Of the packets in flight exactly `gone` are gone; the others are untouched. */
  ghost predicate AllConsumed(s: Snapshot, t: Snapshot, gone: set<Ptr>) {
    && (forall p :: InFlightIn(t, p) <==> InFlightIn(s, p) && p !in gone)
    && (forall p :: InFlightIn(t, p) ==> p in s.node && p in t.node && t.node[p] == s.node[p])
  }

  /** The first `i` packets have been processed; none of them was lost, unless `lost`. */
  ghost predicate Progress(s: Snapshot, t: Snapshot, rnti: nat, infos: seq<RlcUlDataInfo>, i: nat, mac: Option<Report>, lost: bool)
    requires i <= |infos|
  {
    && AllConsumed(s, t, BuffersOf(infos[..i])) && ContextsKept(s, t)
    && (!lost ==>
          var o := PacketsThrough(States(s), rnti, DeletedIn(s, rnti), PacketsIn(s.node, infos)[..i], mac);
          States(t) == o.states && PassedOn(t.inbox) == PassedOn(s.inbox) + o.passed)
  }

  lemma ProgressBegins(s: Snapshot, rnti: nat, infos: seq<RlcUlDataInfo>, mac: Option<Report>)
    requires Sound(s)
    ensures Progress(s, s, rnti, infos, 0, mac, false)
  {
  }

  lemma NextInfoOk(s: Snapshot, t: Snapshot, ind: MacUeDataInd_t, infos: seq<RlcUlDataInfo>, i: nat, mac: Option<Report>,
                   lost: bool, max: nat, blocks: nat)
    requires IndOk(s, ind, max) && ind.rlcData.Some? && infos == ind.rlcData.value.rlcDataArray && i < |infos|
    requires Underway(s, t, ind.rnti, infos, i, mac, lost, blocks)
    ensures InfoOk(t, infos[i], max) && BytesOf(t.node, infos[i].rlcdataBuffer) == BytesOf(s.node, infos[i].rlcdataBuffer)
  {
    if infos[i].rlcdataBuffer in BuffersOf(infos[..i]) {
      var j :| 0 <= j < i && infos[j].rlcdataBuffer == infos[i].rlcdataBuffer;
    }
  }

  lemma BlocksStayInFlight(s: Snapshot, t: Snapshot, ind: MacUeDataInd_t, infos: seq<RlcUlDataInfo>, mac: Option<Report>,
                           lost: bool, max: nat, blocks: nat)
    requires IndOk(s, ind, max) && ind.rlcData.Some? && infos == ind.rlcData.value.rlcDataArray
    requires Underway(s, t, ind.rnti, infos, |infos|, mac, lost, blocks)
    ensures InFlightIn(t, ind.node) && InFlightIn(t, ind.rlcData.value.node) && ind.rlcData.value.node != ind.node
  {
    assert infos[..|infos|] == infos;
  }

  lemma IndInFlight(s: Snapshot, ind: MacUeDataInd_t, max: nat)
    requires IndOk(s, ind, max)
    ensures InFlightIn(s, ind.node)
  {
  }

  lemma NotDropped(s: Snapshot, t: Snapshot, buf: Ptr, p: Ptr)
    requires InFlightIn(s, p) && p != buf && Unfed(s, t, buf)
    ensures InFlightIn(t, p)
  {
  }

  /** How far an indication has got. */
  ghost predicate Underway(s: Snapshot, t: Snapshot, rnti: nat, infos: seq<RlcUlDataInfo>, i: nat, mac: Option<Report>, lost: bool, blocks: nat)
    requires i <= |infos|
  {
    Progress(s, t, rnti, infos, i, mac, lost) && Heavier(s, t) && (lost ==> Strained(s, t, blocks))
  }

  lemma UnderwayBegins(s: Snapshot, rnti: nat, infos: seq<RlcUlDataInfo>, mac: Option<Report>, blocks: nat)
    requires Sound(s)
    ensures Underway(s, s, rnti, infos, 0, mac, false, blocks)
  {
    ProgressBegins(s, rnti, infos, mac);
  }

  lemma UnderwayNext(s: Snapshot, t: Snapshot, t': Snapshot, rnti: nat, infos: seq<RlcUlDataInfo>, i: nat, mac: Option<Report>,
                     b: seq<byte>, lost: bool, lost': bool, blocks: nat)
    requires i < |infos| && Underway(s, t, rnti, infos, i, mac, lost, blocks)
    requires b == BytesOf(s.node, infos[i].rlcdataBuffer) && (lost' ==> Strained(t, t, blocks))
    requires PacketDone(t, t', Key(rnti, infos[i].lcId), infos[i].rlcdataBuffer, b, mac, lost')
    ensures Underway(s, t', rnti, infos, i + 1, mac, lost || lost', blocks)
  {
    hide Progress, Strained, PacketDone;
    LoadGrows(t, t', Key(rnti, infos[i].lcId), infos[i].rlcdataBuffer, b, mac, lost');
    if lost || lost' { StillStrained(s, t, t', rnti, infos, i, mac, b, lost, lost', blocks); }
    ProgressMade(s, t, t', rnti, infos, i, mac, b, lost, lost');
  }

  lemma UnderwayEnds(s: Snapshot, u: Snapshot, v: Snapshot, t: Snapshot, ind: MacUeDataInd_t, mac: Option<Report>, lost: bool, blocks: nat)
    requires ind.rlcData.Some?
    requires var infos := ind.rlcData.value.rlcDataArray; Underway(s, u, ind.rnti, infos, |infos|, mac, lost, blocks)
    requires Unfed(u, v, ind.rlcData.value.node) && v.contexts == u.contexts
    requires Unfed(v, t, ind.node) && t.contexts == v.contexts
    ensures IndDone(s, t, ind, mac, lost) && Heavier(s, t) && (lost ==> Strained(s, t, blocks))
  {
    hide Progress, Strained, Unfed, IndDone;
    UnfedLoad(u, v, ind.rlcData.value.node);
    UnfedLoad(v, t, ind.node);
    AllDone(s, u, v, t, ind, mac, lost);
    if lost { StrainedAtEnd(s, u, v, t, ind, ind.rlcData.value.node, blocks); }
  }

  /** What is promised of an indication as a whole. */
  ghost predicate IndDone(s: Snapshot, t: Snapshot, ind: MacUeDataInd_t, mac: Option<Report>, lost: bool) {
    && AllConsumed(s, t, BlocksOf(ind)) && ContextsKept(s, t)
    && (!lost ==>
          var packets := if ind.rlcData.Some? then PacketsIn(s.node, ind.rlcData.value.rlcDataArray) else [];
          var o := PacketsThrough(States(s), ind.rnti, DeletedIn(s, ind.rnti), packets, mac);
          States(t) == o.states && PassedOn(t.inbox) == PassedOn(s.inbox) + o.passed)
  }

  lemma EmptyIndDone(s: Snapshot, t: Snapshot, ind: MacUeDataInd_t, mac: Option<Report>)
    requires ind.rlcData == None && Unfed(s, t, ind.node) && t.contexts == s.contexts
    ensures IndDone(s, t, ind, mac, false)
  {
  }

  lemma AllDone(s: Snapshot, u: Snapshot, v: Snapshot, t: Snapshot, ind: MacUeDataInd_t, mac: Option<Report>, lost: bool)
    requires ind.rlcData.Some?
    requires var infos := ind.rlcData.value.rlcDataArray; Progress(s, u, ind.rnti, infos, |infos|, mac, lost)
    requires Unfed(u, v, ind.rlcData.value.node) && v.contexts == u.contexts
    requires Unfed(v, t, ind.node) && t.contexts == v.contexts
    ensures IndDone(s, t, ind, mac, lost)
  {
    var infos := ind.rlcData.value.rlcDataArray;
    assert infos[..|infos|] == infos;
    assert PacketsIn(s.node, infos)[..|infos|] == PacketsIn(s.node, infos);
    assert BlocksOf(ind) == {ind.node} + {ind.rlcData.value.node} + BuffersOf(infos);
  }

  lemma NextConsumed(s: Snapshot, t: Snapshot, t': Snapshot, infos: seq<RlcUlDataInfo>, i: nat)
    requires i < |infos| && AllConsumed(s, t, BuffersOf(infos[..i])) && Consumed(t, t', infos[i].rlcdataBuffer)
    ensures AllConsumed(s, t', BuffersOf(infos[..i + 1]))
  {
    assert infos[..i + 1] == infos[..i] + [infos[i]];
    assert BuffersOf(infos[..i + 1]) == BuffersOf(infos[..i]) + {infos[i].rlcdataBuffer};
  }

  lemma NextTraffic(states: map<Key, State>, rnti: nat, deleted: bool, packets: seq<Packet>, i: nat, mac: Option<Report>)
    requires i < |packets|
    ensures var before := PacketsThrough(states, rnti, deleted, packets[..i], mac);
            var o := PacketThrough(before.states, Key(rnti, packets[i].lcId), deleted, packets[i].bytes, mac);
            PacketsThrough(states, rnti, deleted, packets[..i + 1], mac) == Traffic(o.states, before.passed + o.passed)
  {
    assert packets[..i + 1][..i] == packets[..i];
  }

  lemma ProgressMade(s: Snapshot, t: Snapshot, t': Snapshot, rnti: nat, infos: seq<RlcUlDataInfo>, i: nat, mac: Option<Report>,
                     b: seq<byte>, lost: bool, lost': bool)
    requires i < |infos| && Progress(s, t, rnti, infos, i, mac, lost)
    requires b == BytesOf(s.node, infos[i].rlcdataBuffer)
    requires PacketDone(t, t', Key(rnti, infos[i].lcId), infos[i].rlcdataBuffer, b, mac, lost')
    ensures Progress(s, t', rnti, infos, i + 1, mac, lost || lost')
  {
    hide Consumed, AllConsumed, PacketThrough, PacketsThrough, States, PassedOn;
    NextConsumed(s, t, t', infos, i);
    if !lost && !lost' {
      TrafficMade(s, t, t', rnti, PacketsIn(s.node, infos), i, mac);
    }
  }

  lemma TrafficMade(s: Snapshot, t: Snapshot, t': Snapshot, rnti: nat, packets: seq<Packet>, i: nat, mac: Option<Report>)
    requires i < |packets| && ContextsKept(s, t)
    requires var o := PacketsThrough(States(s), rnti, DeletedIn(s, rnti), packets[..i], mac);
             States(t) == o.states && PassedOn(t.inbox) == PassedOn(s.inbox) + o.passed
    requires var o := PacketThrough(States(t), Key(rnti, packets[i].lcId), DeletedIn(t, rnti), packets[i].bytes, mac);
             States(t') == o.states && PassedOn(t'.inbox) == PassedOn(t.inbox) + o.passed
    ensures var o := PacketsThrough(States(s), rnti, DeletedIn(s, rnti), packets[..i + 1], mac);
            States(t') == o.states && PassedOn(t'.inbox) == PassedOn(s.inbox) + o.passed
  {
    hide PacketThrough, PacketsThrough, States, PassedOn;
    NextTraffic(States(s), rnti, DeletedIn(s, rnti), packets, i, mac);
  }

  lemma DroppedIsDone(s: Snapshot, t: Snapshot, rnti: nat, info: RlcUlDataInfo, b: seq<byte>, mac: Option<Report>)
    requires info.lcId > SRB_2_LCID && Unfed(s, t, info.rlcdataBuffer) && t.contexts == s.contexts
    ensures PacketDone(s, t, Key(rnti, info.lcId), info.rlcdataBuffer, b, mac, false)
  {
  }

  // ----- When memory is short -----

  /**
    The pool's `blocks` that fit every request are nearly used up by what the layer owns in `t` and
    what was in flight in `s`.
   */
  ghost predicate Strained(s: Snapshot, t: Snapshot, blocks: nat) {
    blocks <= |t.contexts| + 2 * |t.entities| + |t.inbox| + |Flight(s)| + MOST_ALLOCS + 2
  }

  lemma ShortOfBlocks(s: Snapshot, spare: nat, blocks: nat)
    requires Sound(s) && NULL !in s.node
    requires blocks <= spare + |LiveIn(s.node)| && spare <= MOST_ALLOCS + 2
    ensures Strained(s, s, blocks)
  {
    LiveBlocks(s);
    SubsetSize(Holding(s), s.entities.Keys);
  }

  /** The layer owns at least as many blocks of each lasting kind. */
  ghost predicate Heavier(s: Snapshot, t: Snapshot) {
    |s.contexts| <= |t.contexts| && |s.entities| <= |t.entities| && |s.inbox| <= |t.inbox|
  }

  lemma LoadGrows(s: Snapshot, t: Snapshot, k: Key, buf: Ptr, b: seq<byte>, mac: Option<Report>, lost: bool)
    requires PacketDone(s, t, k, buf, b, mac, lost)
    ensures Heavier(s, t)
  {
    SubsetSize(s.contexts.Keys, t.contexts.Keys);
    assert States(s).Keys == s.entities.Keys && States(t).Keys == t.entities.Keys;
    SubsetSize(s.entities.Keys, t.entities.Keys);
    assert |PassedOn(s.inbox)| == |s.inbox| && |PassedOn(t.inbox)| == |t.inbox|;
  }

  lemma StrainStays(s: Snapshot, t: Snapshot, t': Snapshot, gone: set<Ptr>, k: Key, buf: Ptr, b: seq<byte>, mac: Option<Report>,
                    lost: bool, blocks: nat)
    requires AllConsumed(s, t, gone) && PacketDone(t, t', k, buf, b, mac, lost)
    requires Strained(s, t, blocks) || Strained(t, t, blocks)
    ensures Strained(s, t', blocks)
  {
    LoadGrows(t, t', k, buf, b, mac, lost);
    forall p | p in Flight(t)
      ensures p in Flight(s)
    {
      assert InFlightIn(t, p);
    }
    SubsetSize(Flight(t), Flight(s));
  }

  lemma UnfedLoad(s: Snapshot, t: Snapshot, buf: Ptr)
    requires Unfed(s, t, buf) && t.contexts == s.contexts
    ensures |t.contexts| == |s.contexts| && |t.entities| == |s.entities| && |t.inbox| == |s.inbox|
    ensures Heavier(s, t)
  {
    assert States(s).Keys == s.entities.Keys && States(t).Keys == t.entities.Keys;
    assert |t.entities| == |t.entities.Keys| && |s.entities| == |s.entities.Keys|;
  }

  lemma StillStrained(s: Snapshot, t: Snapshot, t': Snapshot, rnti: nat, infos: seq<RlcUlDataInfo>, i: nat, mac: Option<Report>,
                      b: seq<byte>, lost: bool, lost': bool, blocks: nat)
    requires i < |infos| && Progress(s, t, rnti, infos, i, mac, lost)
    requires PacketDone(t, t', Key(rnti, infos[i].lcId), infos[i].rlcdataBuffer, b, mac, lost')
    requires (lost && Strained(s, t, blocks)) || (lost' && Strained(t, t, blocks))
    ensures Strained(s, t', blocks)
  {
    hide Strained, PacketDone, AllConsumed;
    StrainStays(s, t, t', BuffersOf(infos[..i]), Key(rnti, infos[i].lcId), infos[i].rlcdataBuffer, b, mac, lost', blocks);
  }

  lemma StrainedAtEnd(s: Snapshot, u: Snapshot, v: Snapshot, t: Snapshot, ind: MacUeDataInd_t, node: Ptr, blocks: nat)
    requires Strained(s, u, blocks)
    requires Unfed(u, v, node) && v.contexts == u.contexts && Unfed(v, t, ind.node) && t.contexts == v.contexts
    ensures Strained(s, t, blocks)
  {
    UnfedLoad(u, v, node);
    UnfedLoad(v, t, ind.node);
  }

  // ----- Deletion -----

  /** The channels of `gone` are deleted; nothing else changed. */
  ghost predicate Deleted(s: Snapshot, t: Snapshot, gone: set<Key>) {
    AllConsumed(s, t, {}) && States(t) == States(s) - gone && t.inbox == s.inbox
  }

  lemma NothingDeleted(s: Snapshot, r: nat)
    requires Sound(s)
    ensures Deleted(s, s, ChannelsOf(r, 0))
  {
    assert ChannelsOf(r, 0) == {};
  }

  lemma NoSuchEntity(s: Snapshot, u: Snapshot, k: Key, gone: set<Key>)
    requires Deleted(s, u, gone) && k !in u.entities
    ensures Deleted(s, u, gone + {k})
  {
    assert k !in States(u);
    assert States(s) - (gone + {k}) == States(s) - gone - {k};
  }

  /** The channels of a UE with a number below `n`. */
  ghost function ChannelsOf(r: nat, n: nat): set<Key> {
    set i | 0 <= i < n :: Key(r, i)
  }

  lemma OneMoreChannel(r: nat, n: nat)
    ensures ChannelsOf(r, n + 1) == ChannelsOf(r, n) + {Key(r, n)}
  {
  }

  lemma AllChannelsGone(s: Snapshot, u: Snapshot, r: nat)
    requires Sound(u) && Deleted(s, u, ChannelsOf(r, MAX_LC_ID))
    ensures forall k :: k in u.entities ==> k.rnti != r
  {
    forall k | k in u.entities
      ensures k in States(u) && k.lcId < MAX_LC_ID
    {
    }
    assert forall k | k in u.entities :: k == Key(k.rnti, k.lcId) && k !in ChannelsOf(r, MAX_LC_ID);
  }

  lemma EntityDeleted(s: Snapshot, u: Snapshot, node: map<Ptr, MemNode>, k: Key, gone: set<Key>)
    requires Deleted(s, u, gone) && Sound(u) && k in u.entities && NULL !in u.owner
    requires var v := u.entities[k];
             LiveIn(node) == LiveIn(u.node) - {v.node, v.rawData} && Kept(u.node, node, LiveIn(u.node) - {v.node, v.rawData})
    ensures Sound(WithoutEntity(u, node, k)) && Deleted(s, WithoutEntity(u, node, k), gone + {k})
  {
    hide Sound, States, AllConsumed;
    EntityGone(u, node, k);
    FlightUntouched(s, u, node, k);
    assert States(s) - (gone + {k}) == States(s) - gone - {k};
  }

  lemma FlightUntouched(s: Snapshot, u: Snapshot, node: map<Ptr, MemNode>, k: Key)
    requires AllConsumed(s, u, {}) && Sound(u) && k in u.entities
    requires var v := u.entities[k]; Kept(u.node, node, LiveIn(u.node) - {v.node, v.rawData})
    ensures AllConsumed(s, WithoutEntity(u, node, k), {})
  {
    assert EntityNodes(u)[k] == u.entities[k].node && HeldNodes(u)[k] == u.entities[k].rawData;
  }

  lemma ContextDeleted(s: Snapshot, u: Snapshot, node: map<Ptr, MemNode>, r: nat, gone: set<Key>)
    requires Deleted(s, u, gone) && Sound(u) && r in u.contexts && forall k :: k in u.entities ==> k.rnti != r
    requires var p := u.contexts[r].node;
             LiveIn(node) == LiveIn(u.node) - {p} && Kept(u.node, node, LiveIn(u.node) - {p})
    ensures Sound(WithoutContext(u, node, r)) && Deleted(s, WithoutContext(u, node, r), gone)
  {
    ContextGone(u, node, r);
    assert ContextNodes(u)[r] == u.contexts[r].node;
  }

  /** The blocks of an entity are live and different. */
  lemma EntityIsLive(s: Snapshot, k: Key)
    requires Sound(s) && k in s.entities
    ensures s.entities[k].node in LiveIn(s.node)
    ensures s.entities[k].rawData != NULL ==> s.entities[k].rawData in LiveIn(s.node) - {s.entities[k].node}
  {
    assert EntityNodes(s)[k] == s.entities[k].node && HeldNodes(s)[k] == s.entities[k].rawData;
  }

  lemma NullUnowned(s: Snapshot)
    requires Sound(s) && NULL !in s.node
    ensures NULL !in s.owner
  {
  }

  lemma ContextIsLive(s: Snapshot, r: nat)
    requires Sound(s) && r in s.contexts
    ensures s.contexts[r].node in LiveIn(s.node)
  {
    assert ContextNodes(s)[r] == s.contexts[r].node;
  }

  class Layer {
    const pool: Pool
    const pdcp: Pdcp
    const sizes: Sizes
    var contexts: map<nat, UeContext>
    var channels: map<Key, Channel>
    /** The layer at this moment, with the owners of all blocks. */
    ghost var now: Snapshot

    constructor (pool: Pool, pdcp: Pdcp, sizes: Sizes)
      requires pool.Valid() && pool.exact && pool.Live() == {} && pdcp.inbox == []
      ensures this.pool == pool && this.pdcp == pdcp && this.sizes == sizes
      ensures Ready() && States(now) == map[] && contexts == map[] && channels == map[]
      ensures now.owner == map[] && now.inbox == []
    {
      this.pool, this.pdcp, this.sizes := pool, pdcp, sizes;
      contexts, channels := map[], map[];
      now := Snapshot(pool.node, map[], map[], map[], []);
    }

    ghost function Ents(): set<RxAmEntity>
      reads this
    {
      set k | k in channels :: channels[k].ent
    }

    ghost function Rings(): set<Ring>
      reads this
    {
      set k | k in channels :: channels[k].ring
    }

    /** `now` is the actual state; each channel has its own entity and an idle ring. */
    ghost predicate Linked()
      reads this, pool, pdcp, Ents(), Rings()
    {
      && now.node == pool.node && now.inbox == pdcp.inbox && now.contexts == contexts
      && ChannelsLinked()
    }

    ghost predicate ChannelsLinked()
      reads this, Ents(), Rings()
    {
      && channels.Keys == now.entities.Keys
      && (forall k :: k in channels ==>
            && channels[k].ent.rnti == k.rnti && channels[k].ent.lcId == k.lcId && channels[k].ring.ent == channels[k].ent
            && channels[k].ring.Idle() && now.entities[k] == ValueOf(channels[k].ent))
    }

    /** No other channel shares the entity or the ring of channel `k`. */
    ghost predicate Apart(k: Key)
      requires k in channels
      reads this
    {
      forall l :: l in channels && l != k ==> channels[l].ent != channels[k].ent && channels[l].ring != channels[k].ring
    }

    ghost predicate Ready()
      reads this, pool, pdcp, Ents(), Rings()
    {
      pool.Valid() && pool.exact && Linked() && Sound(now)
    }

    /** The entity of channel `k` works on the packet in block `buf`. */
    method Pass(k: Key, c: Channel, h: AmdHeader, buf: Ptr, beyond: nat -> byte, mac: Option<Report>, ghost max: nat, ghost b: seq<byte>)
      returns (ghost lost: bool, ghost t: Snapshot)
      requires Ready() && k in channels && channels[k] == c
      requires InFlightIn(now, buf) && buf in pool.node && Content(pool.node[buf]) == b
      requires FitsRequests(sizes, |b|, max) && DecodeHeader(b) == Some(h) && h.dc == 1
      modifies pool, pdcp, c.ent, c.ring
      ensures pool.Valid()
      ensures lost ==> old(SpareIn(pool, max)) <= MOST_ALLOCS
      ensures pool.exact ==>
                && c.ring.Idle()
                && t.node == pool.node && t.inbox == pdcp.inbox && t.contexts == now.contexts
                && t.entities == now.entities[k := ValueOf(c.ent)]
      ensures pool.exact ==> Sound(t) && if lost then Unfed(now, t, buf) else Fed(now, t, k, buf, b, mac)
    {
      hide Partitioned, AtHome;
      ghost var others := now.owner.Keys - {buf} - HeldBlocksOf(now.entities[k]);
      EntityStands(now, k, buf);
      ghost var given;
      given, lost := ReceiveDataPdu(pool, pdcp, c.ent, c.ring, h, buf, beyond, sizes, mac, others, max, b);
      t := now;
      if pool.exact {
        ghost var v, more := ValueOf(c.ent), pdcp.inbox[|now.inbox|..];
        Rejoined(now.inbox, pdcp.inbox);
        t := WithPdu(now, pool.node, k, others, v, more, given);
        if lost {
          PduLost(now, t, k, buf, others, v, more, given);
        } else {
          PduFed(now, t, k, buf, b, mac, others, v, more, given);
        }
      }
    }

    /** No entity or ring was touched. */
    twostate lemma StillLinked()
      requires old(Linked()) && channels == old(channels) && now.entities == old(now.entities)
      requires forall l :: l in channels ==> unchanged(channels[l].ent) && unchanged(channels[l].ring)
      requires now.node == pool.node && now.inbox == pdcp.inbox && now.contexts == contexts
      ensures Linked()
    {
    }

    /** Only the entity and the ring of channel `k` were touched, or are new. */
    twostate lemma Relinked(k: Key)
      requires old(Linked()) && k in channels && channels == old(channels)[k := channels[k]]
      requires forall l :: l in channels && l != k ==> unchanged(channels[l].ent) && unchanged(channels[l].ring)
      requires now.node == pool.node && now.inbox == pdcp.inbox && now.contexts == contexts
      requires now.entities == old(now.entities)[k := ValueOf(channels[k].ent)]
      requires channels[k].ent.rnti == k.rnti && channels[k].ent.lcId == k.lcId
      requires channels[k].ring.ent == channels[k].ent && channels[k].ring.Idle()
      ensures Linked()
    {
    }

    /** The data PDU `b` goes through the entity of channel `k`, unless it is lost. */
    method Feed(k: Key, h: AmdHeader, buf: Ptr, beyond: nat -> byte, mac: Option<Report>, ghost max: nat, ghost b: seq<byte>)
      returns (ghost lost: bool)
      requires Ready() && k in channels
      requires InFlightIn(now, buf) && buf in pool.node && Content(pool.node[buf]) == b
      requires FitsRequests(sizes, |b|, max) && DecodeHeader(b) == Some(h) && h.dc == 1
      modifies this`now, pool, pdcp, channels[k].ent, channels[k].ring
      ensures pool.Valid()
      ensures pool.exact ==> Ready()
      ensures pool.exact && !lost ==> Fed(old(now), now, k, buf, b, mac)
      ensures pool.exact && lost ==> Unfed(old(now), now, buf)
      ensures lost ==> old(SpareIn(pool, max)) <= MOST_ALLOCS
    {
      hide Sound, Fed, Unfed, Partitioned, AtHome;
      assert Apart(k);
      var c := channels[k];
      ghost var t;
      lost, t := Pass(k, c, h, buf, beyond, mac, max, b);
      if pool.exact {
        now := t;
        Relinked(k);
      }
    }

    /** MemFree of a packet in flight; freeing null does nothing. */
    method DropPacket(buf: Ptr, ghost max: nat)
      requires Ready() && (buf != NULL ==> InFlightIn(now, buf))
      modifies this`now, pool`node, pool`pool
      ensures Ready() && Unfed(old(now), now, buf) && now.contexts == old(now.contexts)
      ensures SpareIn(pool, max) >= old(SpareIn(pool, max))
    {
      hide Sound, Unfed, Partitioned, AtHome;
      if buf == NULL {
        NothingDropped(now);
        pool.Fits(NULL);
        pool.MemFree(buf);
      } else {
        FlightIsLive(now, buf);
        Free(pool, buf, max);
        DroppedIsUnfed(now, pool.node, buf);
        now := WithoutPacket(now, pool.node, buf);
        StillLinked();
      }
    }

    /** RlcCreateUeContext */
    method RlcCreateUeContext(rnti: nat, ghost max: nat) returns (ok: bool)
      requires Ready() && rnti !in contexts && sizes.ueContext <= max
      modifies this`now, this`contexts, pool`node, pool`pool
      ensures Ready()
      ensures ok ==> SameTraffic(old(now), now) && rnti in contexts
      ensures !ok ==> contexts == old(contexts) && now == old(now) && old(SpareIn(pool, max)) == 0
      ensures SpareIn(pool, max) + 1 >= old(SpareIn(pool, max))
    {
      hide Sound, SameTraffic, Partitioned, AtHome;
      var p := Alloc(pool, sizes.ueContext, max);
      ok := p != NULL;
      if ok {
        ContextIsFound(now, pool.node, rnti, p);
        contexts := contexts[rnti := UeContext(p, false)];
        now := WithContext(now, pool.node, rnti, p);
        StillLinked();
      }
    }

    /** RlcCreateRxAmEntity */
    method RlcCreateRxAmEntity(k: Key, ghost max: nat) returns (ok: bool)
      requires Ready() && k !in channels && k.rnti in contexts && k.lcId < MAX_LC_ID && sizes.amEntity <= max
      modifies this`now, this`channels, pool`node, pool`pool
      ensures Ready()
      ensures ok ==> k in channels && channels == old(channels)[k := channels[k]] && fresh(channels[k].ent) && fresh(channels[k].ring)
      ensures ok ==> Started(old(now), now, k)
      ensures !ok ==> channels == old(channels) && now == old(now) && old(SpareIn(pool, max)) == 0
      ensures SpareIn(pool, max) + 1 >= old(SpareIn(pool, max))
    {
      hide Sound, Started, Partitioned, AtHome;
      var p := Alloc(pool, sizes.amEntity, max);
      ok := p != NULL;
      if ok {
        var ent := new RxAmEntity(p, k.rnti, k.lcId);
        var ring := new Ring(ent);
        EntityIsStarted(now, pool.node, k, p);
        channels := channels[k := Channel(ent, ring)];
        now := WithEntity(now, pool.node, k, p);
        Relinked(k);
      }
    }

    /** The context and the entity a packet of channel `k` needs, made where they do not exist. */
    method FindEntity(k: Key, ghost max: nat) returns (ok: bool)
      requires Ready() && k.lcId < MAX_LC_ID && sizes.ueContext <= max && sizes.amEntity <= max
      modifies this, pool`node, pool`pool
      ensures Ready() && Consumed(old(now), now, NULL) && AsBefore(old(now), now, k)
      ensures ok ==> k in channels
      ensures forall l :: l in channels ==>
                (l in old(channels) && channels[l] == old(channels)[l]) || (fresh(channels[l].ent) && fresh(channels[l].ring))
      ensures !ok ==> old(SpareIn(pool, max)) <= 1
      ensures SpareIn(pool, max) + 2 >= old(SpareIn(pool, max))
    {
      hide Sound, SameTraffic, Started, Consumed, AsBefore, Partitioned, AtHome;
      ok := true;
      ghost var s := now;
      NothingFound(s);
      if k.rnti !in contexts {
        ok := RlcCreateUeContext(k.rnti, max);
      }
      FoundSoFar(s, now, k);
      ghost var u := now;
      if ok && k !in channels {
        ok := RlcCreateRxAmEntity(k, max);
        if ok { EntityFound(s, u, now, k); }
      }
    }

    /** RlcDecodeAmdHeader */
    method RlcDecodeAmdHeader(info: RlcUlDataInfo, ghost max: nat) returns (h: Option<AmdHeader>)
      requires Ready() && InfoOk(now, info, max)
      ensures h == DecodeHeader(BytesOf(pool.node, info.rlcdataBuffer))
    {
      BytesOfInfo(now, info, max);
      if info.rlcdataBuffer == NULL || info.length == 0 {
        h := None;
      } else {
        h := DecodeHeader(pool.node[info.rlcdataBuffer].data[..info.length]);
      }
    }

    lemma WhenShort(max: nat)
      requires Ready()
      ensures SpareIn(pool, max) <= MOST_ALLOCS + 2 ==> Strained(now, now, |Fitting(pool.config, pool.home, max)|)
    {
      SpareOrLive(pool.config, pool.node, pool.pool, pool.home, max);
      if SpareIn(pool, max) <= MOST_ALLOCS + 2 {
        ShortOfBlocks(now, SpareIn(pool, max), |Fitting(pool.config, pool.home, max)|);
      }
    }

    /** RlcProcessAMRxPacket: the packet goes through the AM entity of its channel, or is refused, or is lost. */
    method RlcProcessAMRxPacket(info: RlcUlDataInfo, rnti: nat, beyond: nat -> byte, mac: Option<Report>, ghost max: nat)
      returns (ghost lost: bool)
      requires Ready() && InfoOk(now, info, max) && AllFit(sizes, max)
      modifies this, pool, pdcp, Ents(), Rings()
      ensures pool.Valid()
      ensures pool.exact ==> Ready()
      ensures pool.exact ==>
                PacketDone(old(now), now, Key(rnti, info.lcId), info.rlcdataBuffer,
                           old(BytesOf(pool.node, info.rlcdataBuffer)), mac, lost)
      ensures forall l :: l in channels ==>
                (l in old(channels) && channels[l] == old(channels)[l]) || (fresh(channels[l].ent) && fresh(channels[l].ring))
      ensures lost ==> Strained(old(now), old(now), |Fitting(pool.config, pool.home, max)|)
    {
      hide Sound, SameTraffic, Unfed, Fed, Consumed, AsBefore, PacketDone, Partitioned, AtHome, Strained;
      lost := false;
      WhenShort(max);
      var k, buf := Key(rnti, info.lcId), info.rlcdataBuffer;
      ghost var s, b := now, BytesOf(pool.node, buf);
      var header := RlcDecodeAmdHeader(info, max);
      if info.lcId > SRB_2_LCID || header == None || header.value.dc == 0 || (rnti in contexts && contexts[rnti].deleteFlag) {
        DropPacket(buf, max);
        PacketRefused(s, now, k, buf, b, mac);
        return;
      }
      BytesOfInfo(s, info, max);
      lost := ProcessData(k, header.value, buf, beyond, mac, max, b);
    }

    /** A data PDU: through the entity of its channel, which is made first if need be. */
    method ProcessData(k: Key, h: AmdHeader, buf: Ptr, beyond: nat -> byte, mac: Option<Report>, ghost max: nat, ghost b: seq<byte>)
      returns (ghost lost: bool)
      requires Ready() && AllFit(sizes, max) && k.lcId <= SRB_2_LCID && !DeletedIn(now, k.rnti)
      requires InFlightIn(now, buf) && buf in pool.node && Content(pool.node[buf]) == b && |b| <= max
      requires DecodeHeader(b) == Some(h) && h.dc == 1
      modifies this, pool, pdcp, Ents(), Rings()
      ensures pool.Valid()
      ensures pool.exact ==> Ready()
      ensures pool.exact ==> PacketDone(old(now), now, k, buf, b, mac, lost)
      ensures forall l :: l in channels ==>
                (l in old(channels) && channels[l] == old(channels)[l]) || (fresh(channels[l].ent) && fresh(channels[l].ring))
      ensures lost ==> old(SpareIn(pool, max)) <= MOST_ALLOCS + 2
    {
      hide Sound, SameTraffic, Unfed, Fed, Consumed, AsBefore, PacketDone, Partitioned, AtHome, Strained, DecodeHeader;
      ghost var s := now;
      var ok := FindEntity(k, max);
      ghost var u := now;
      InFlightStays(s, u, buf);
      lost := !ok;
      if !ok {
        DropPacket(buf, max);
        PacketLost(s, u, now, k, buf, b, mac);
        return;
      }
      lost := Feed(k, h, buf, beyond, mac, max, b);
      if pool.exact {
        if lost {
          PacketLost(s, u, now, k, buf, b, mac);
        } else {
          PacketFed(s, u, now, k, buf, b, mac);
        }
      }
    }

    /** One entry of an indication: RlcProcessAMRxPacket or RlcProcessUmOrTmRxPacket. */
    method ProcessPacket(info: RlcUlDataInfo, rnti: nat, beyond: nat -> byte, mac: Option<Report>, ghost max: nat)
      returns (ghost lost: bool)
      requires Ready() && InfoOk(now, info, max) && AllFit(sizes, max)
      modifies this, pool, pdcp, Ents(), Rings()
      ensures pool.Valid()
      ensures pool.exact ==> Ready()
      ensures pool.exact ==>
                PacketDone(old(now), now, Key(rnti, info.lcId), info.rlcdataBuffer,
                           old(BytesOf(pool.node, info.rlcdataBuffer)), mac, lost)
      ensures forall l :: l in channels ==>
                (l in old(channels) && channels[l] == old(channels)[l]) || (fresh(channels[l].ent) && fresh(channels[l].ring))
      ensures lost ==> Strained(old(now), old(now), |Fitting(pool.config, pool.home, max)|)
    {
      hide Sound, Unfed, PacketDone, Partitioned, AtHome, Strained;
      ghost var s, b := now, BytesOf(pool.node, info.rlcdataBuffer);
      if info.lcId <= SRB_2_LCID {
        lost := RlcProcessAMRxPacket(info, rnti, beyond, mac, max);
      } else {
        lost := false;
        DropPacket(info.rlcdataBuffer, max);
        DroppedIsDone(s, now, rnti, info, b, mac);
      }
    }

    /** The loop of MacUeDataInd. */
    method ProcessPackets(ind: MacUeDataInd_t, infos: seq<RlcUlDataInfo>, beyond: nat -> byte, mac: Option<Report>, ghost max: nat)
      returns (ghost lost: bool)
      requires Ready() && IndOk(now, ind, max) && AllFit(sizes, max) && ind.rlcData.Some? && infos == ind.rlcData.value.rlcDataArray
      modifies this, pool, pdcp, Ents(), Rings()
      ensures pool.Valid()
      ensures pool.exact ==>
                && Ready()
                && Underway(old(now), now, ind.rnti, infos, |infos|, mac, lost, |Fitting(pool.config, pool.home, max)|)
      ensures forall l :: l in channels ==>
                (l in old(channels) && channels[l] == old(channels)[l]) || (fresh(channels[l].ent) && fresh(channels[l].ring))
    {
      hide Sound, Partitioned, AtHome, Underway, IndOk, Unfed, PacketDone, Strained;
      ghost var blocks := |Fitting(pool.config, pool.home, max)|;
      lost := false;
      ghost var s := now;
      UnderwayBegins(s, ind.rnti, infos, mac, blocks);
      for i := 0 to |infos|
        invariant Ready() && Underway(s, now, ind.rnti, infos, i, mac, lost, blocks)
        invariant forall l :: l in channels ==>
                    (l in old(channels) && channels[l] == old(channels)[l]) || (fresh(channels[l].ent) && fresh(channels[l].ring))
      {
        ghost var before, b := now, BytesOf(pool.node, infos[i].rlcdataBuffer);
        NextInfoOk(s, before, ind, infos, i, mac, lost, max, blocks);
        ghost var lostNow := ProcessPacket(infos[i], ind.rnti, beyond, mac, max);
        if !pool.exact {
          return;
        }
        UnderwayNext(s, before, now, ind.rnti, infos, i, mac, b, lost, lostNow, blocks);
        lost := lost || lostNow;
      }
    }

    /**
      MacUeDataInd: every buffer of the indication is processed or freed, then its own blocks are.
      Unless a packet was `lost` for want of memory, each packet went through its channel in turn.
     */
    method MacUeDataInd(ind: MacUeDataInd_t, beyond: nat -> byte, mac: Option<Report>, ghost max: nat) returns (ghost lost: bool)
      requires Ready() && IndOk(now, ind, max) && AllFit(sizes, max)
      modifies this, pool, pdcp, Ents(), Rings()
      ensures pool.Valid()
      ensures pool.exact ==> Ready() && IndDone(old(now), now, ind, mac, lost)
      ensures pool.exact && lost ==> Strained(old(now), now, |Fitting(pool.config, pool.home, max)|)
      ensures pool.exact ==> Heavier(old(now), now)
      ensures forall l :: l in channels ==>
                (l in old(channels) && channels[l] == old(channels)[l]) || (fresh(channels[l].ent) && fresh(channels[l].ring))
    {
      hide Sound, Partitioned, AtHome, Underway, IndOk, IndDone, Unfed, PacketDone, Strained, Heavier;
      ghost var blocks := |Fitting(pool.config, pool.home, max)|;
      lost := false;
      ghost var s := now;
      IndInFlight(s, ind, max);
      if ind.rlcData == None {
        DropPacket(ind.node, max);
        UnfedLoad(s, now, ind.node);
        EmptyIndDone(s, now, ind, mac);
        return;
      }
      var data := ind.rlcData.value;
      var infos := data.rlcDataArray;
      lost := ProcessPackets(ind, infos, beyond, mac, max);
      if !pool.exact {
        return;
      }
      ghost var u := now;
      BlocksStayInFlight(s, u, ind, infos, mac, lost, max, blocks);
      DropPacket(data.node, max);
      ghost var v := now;
      NotDropped(u, v, data.node, ind.node);
      DropPacket(ind.node, max);
      UnderwayEnds(s, u, v, now, ind, mac, lost, blocks);
    }

    method FreeEntity(ent: RxAmEntity, ghost max: nat)
      requires pool.Valid() && ent.node in pool.Live()
      requires ent.rawData != NULL ==> ent.rawData in pool.Live() - {ent.node}
      modifies pool`node, pool`pool
      ensures pool.Valid() && pool.Live() == old(pool.Live()) - {ent.node, ent.rawData}
      ensures Kept(old(pool.node), pool.node, old(pool.Live()) - {ent.node, ent.rawData})
    {
      hide Partitioned, AtHome;
      pool.Fits(NULL);
      if ent.rawData != NULL {
        Free(pool, ent.rawData, max);
      }
      Free(pool, ent.node, max);
    }

    /** No slot of an idle ring has a PDU to delete. */
    method DeleteRing(ring: Ring)
      requires ring.Idle()
    {
      for i := 0 to RING_SIZE {
        if ring.nodes[i].status != RS_FREE {
          assert false;
        }
      }
    }

    /** The blocks of the entity of channel `k` are freed; `t` is the layer without it. */
    method ReleaseEntity(k: Key, ghost s: Snapshot, ghost gone: set<Key>, ghost max: nat) returns (ghost t: Snapshot)
      requires Ready() && k in channels && Deleted(s, now, gone)
      modifies pool`node, pool`pool
      ensures pool.Valid() && Sound(t) && Deleted(s, t, gone + {k})
      ensures t.node == pool.node && t.inbox == now.inbox && t.contexts == now.contexts && t.entities == now.entities - {k}
    {
      hide Sound, Deleted, Partitioned, AtHome;
      var ent := channels[k].ent;
      EntityIsLive(now, k);
      pool.Fits(NULL);
      NullUnowned(now);
      FreeEntity(ent, max);
      EntityDeleted(s, now, pool.node, k, gone);
      t := WithoutEntity(now, pool.node, k);
    }

    /** RlcDeleteRxAmEntity */
    method RlcDeleteRxAmEntity(k: Key, ghost s: Snapshot, ghost gone: set<Key>, ghost max: nat)
      requires Ready() && k in channels && Deleted(s, now, gone)
      modifies this`now, this`channels, pool`node, pool`pool
      ensures Ready() && Deleted(s, now, gone + {k})
      ensures channels == old(channels) - {k}
    {
      hide Sound, Deleted, Partitioned, AtHome;
      DeleteRing(channels[k].ring);
      ghost var t := ReleaseEntity(k, s, gone, max);
      Forget(k, t);
    }

    /** Channel `k` is taken off the list; `t` is the layer without its entity. */
    method Forget(k: Key, ghost t: Snapshot)
      requires ChannelsLinked() && t.entities == now.entities - {k}
      modifies this`now, this`channels
      ensures now == t && channels == old(channels) - {k} && ChannelsLinked()
    {
      channels := channels - {k};
      now := t;
    }

    /** The loop of RlcDeleteUeContext. */
    method DeleteEntities(rnti: nat, ghost max: nat)
      requires Ready()
      modifies this`now, this`channels, pool`node, pool`pool
      ensures Ready() && Deleted(old(now), now, ChannelsOf(rnti, MAX_LC_ID))
      ensures forall k :: k in channels ==> k in old(channels) && channels[k] == old(channels)[k]
    {
      hide Sound, Deleted, Partitioned, AtHome, ChannelsOf;
      ghost var s := now;
      NothingDeleted(s, rnti);
      for i := 0 to MAX_LC_ID
        invariant Ready() && Deleted(s, now, ChannelsOf(rnti, i))
        invariant forall k :: k in channels ==> k in old(channels) && channels[k] == old(channels)[k]
      {
        var k := Key(rnti, i);
        OneMoreChannel(rnti, i);
        if k in channels {
          RlcDeleteRxAmEntity(k, s, ChannelsOf(rnti, i), max);
        } else {
          NoSuchEntity(s, now, k, ChannelsOf(rnti, i));
        }
      }
    }

    /** RlcDeleteUeContext: the UE's entities, the SDUs they hold and its context are freed. */
    method RlcDeleteUeContext(rnti: nat, ghost max: nat)
      requires Ready() && rnti in contexts
      modifies this`now, this`channels, this`contexts, pool`node, pool`pool
      ensures Ready() && Deleted(old(now), now, ChannelsOf(rnti, MAX_LC_ID))
      ensures contexts == old(contexts) - {rnti}
      ensures forall k :: k in channels ==> k.rnti != rnti && k in old(channels) && channels[k] == old(channels)[k]
    {
      hide Sound, Deleted, Partitioned, AtHome, ChannelsOf;
      ghost var s := now;
      DeleteEntities(rnti, max);
      label Emptied:
      ghost var u := now;
      AllChannelsGone(s, u, rnti);
      ContextIsLive(u, rnti);
      Free(pool, contexts[rnti].node, max);
      ContextDeleted(s, u, pool.node, rnti, ChannelsOf(rnti, MAX_LC_ID));
      contexts := contexts - {rnti};
      now := WithoutContext(u, pool.node, rnti);
      StillLinked@Emptied();
    }
  }
}
