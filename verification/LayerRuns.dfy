/**
  Whole runs from an empty pool: transport blocks are received and UEs deleted, in any order.  After
  each step nothing is in flight and every live block has its owner.
 */
module LayerRuns {
  import opened Bytes
  import opened RlcReassembly
  import opened MemPool
  import opened RlcEntity
  import opened RlcPduDecoder
  import opened BlockOwners
  import opened RlcLayer
  import opened RlcStack
  import opened Uplink
  import opened MacToRlc
  import MacDemux

  /** A MAC PDU in memory with its length and the measurement of its time, or the deletion of a UE. */
  datatype Event = Received(rnti: nat, mem: seq<byte>, length: nat, mac: Option<Report>) | DeleteUe(rnti: nat)

  predicate EventOk(e: Event, max: nat) {
    e.Received? ==> e.length < UINT16 && e.length <= max
  }

  /** No UE is waiting to be deleted: marking and deleting are one step. */
  ghost predicate NoneMarked(s: Snapshot) {
    forall r :: !DeletedIn(s, r)
  }

  ghost predicate Quiet(s: Snapshot) {
    Sound(s) && NULL !in s.node && NothingInFlight(s) && NoneMarked(s)
  }

  ghost predicate EventDone(s: Snapshot, t: Snapshot, e: Event, lost: bool, blocks: nat) {
    && Quiet(t)
    && match e
       case Received(rnti, mem, length, mac) => BlockDone(s, t, rnti, PacketsOfPdu(mem, length), mac, lost, blocks)
       case DeleteUe(rnti) =>
         && !lost && t.inbox == s.inbox && States(t) == States(s) - ChannelsOf(rnti, MAX_LC_ID)
         && t.contexts == s.contexts - {rnti}
  }

  /** The snapshots before, between and after the events of a run; `losses` says where a packet was lost. */
  ghost predicate Trace(trace: seq<Snapshot>, events: seq<Event>, losses: seq<bool>, blocks: nat) {
    && |trace| == |events| + 1 && |losses| == |events|
    && (forall i :: 0 <= i < |trace| ==> Quiet(trace[i]))
    && (forall i :: 0 <= i < |events| ==> EventDone(trace[i], trace[i + 1], events[i], losses[i], blocks))
  }

  // ----- What a run leads to -----

  /** The states of all channels and what went up, by the reassembly functions alone. */
  function Course(states: map<Key, State>, events: seq<Event>): Traffic {
    if events == [] then Traffic(states, [])
    else
      var before := Course(states, events[..|events| - 1]);
      match events[|events| - 1]
      case Received(rnti, mem, length, mac) =>
        var o := PacketsThrough(before.states, rnti, false, PacketsOfPdu(mem, length), mac);
        Traffic(o.states, before.passed + o.passed)
      case DeleteUe(rnti) => Traffic(before.states - DeletedChannels(rnti), before.passed)
  }

  function DeletedChannels(rnti: nat): set<Key> {
    set i | 0 <= i < MAX_LC_ID :: Key(rnti, i)
  }

  /** Without a loss the run is its course. */
  lemma {:induction false} TraceIsCourse(trace: seq<Snapshot>, events: seq<Event>, losses: seq<bool>, blocks: nat)
    requires Trace(trace, events, losses, blocks) && forall i :: 0 <= i < |losses| ==> !losses[i]
    ensures var s, t, o := trace[0], trace[|events|], Course(States(trace[0]), events);
            States(t) == o.states && PassedOn(t.inbox) == PassedOn(s.inbox) + o.passed
    decreases |events|
  {
    hide *;
    SizesOf(trace, events, losses, blocks);
    if events == [] {
      CourseOfNone(States(trace[0]));
      assert PassedOn(trace[0].inbox) + [] == PassedOn(trace[0].inbox);
    } else {
      var n := |events| - 1;
      TracePrefix(trace, events, losses, blocks);
      TraceIsCourse(trace[..n + 1], events[..n], losses[..n], blocks);
      EventIsCourse(trace[n], trace[n + 1], events[n], blocks);
      CourseNext(States(trace[0]), events);
    }
  }

  lemma SizesOf(trace: seq<Snapshot>, events: seq<Event>, losses: seq<bool>, blocks: nat)
    requires Trace(trace, events, losses, blocks)
    ensures |trace| == |events| + 1 && |losses| == |events|
  {
  }

  lemma CourseOfNone(states: map<Key, State>)
    ensures Course(states, []) == Traffic(states, [])
  {
  }

  lemma CourseNext(states: map<Key, State>, events: seq<Event>)
    requires events != []
    ensures var n := |events| - 1;
            var before, e := Course(states, events[..n]), events[n];
            && (e.DeleteUe? ==> Course(states, events) == Traffic(before.states - DeletedChannels(e.rnti), before.passed))
            && (e.Received? ==>
                  var o := PacketsThrough(before.states, e.rnti, false, PacketsOfPdu(e.mem, e.length), e.mac);
                  Course(states, events) == Traffic(o.states, before.passed + o.passed))
  {
  }

  lemma TracePrefix(trace: seq<Snapshot>, events: seq<Event>, losses: seq<bool>, blocks: nat)
    requires Trace(trace, events, losses, blocks) && events != []
    ensures var n := |events| - 1;
            && Trace(trace[..n + 1], events[..n], losses[..n], blocks)
            && Quiet(trace[n]) && EventDone(trace[n], trace[n + 1], events[n], losses[n], blocks)
  {
    hide Quiet, EventDone;
  }

  lemma EventIsCourse(s: Snapshot, t: Snapshot, e: Event, blocks: nat)
    requires Quiet(s) && EventDone(s, t, e, false, blocks)
    ensures e.DeleteUe? ==> States(t) == States(s) - DeletedChannels(e.rnti) && PassedOn(t.inbox) == PassedOn(s.inbox)
    ensures e.Received? ==>
              var o := PacketsThrough(States(s), e.rnti, false, PacketsOfPdu(e.mem, e.length), e.mac);
              States(t) == o.states && PassedOn(t.inbox) == PassedOn(s.inbox) + o.passed
  {
    hide Sound, States, PassedOn;
    assert !DeletedIn(s, e.rnti);
  }

  /** The packets of all received PDUs. */
  function AllArrivals(events: seq<Event>): seq<Arrival> {
    if events == [] then []
    else
      AllArrivals(events[..|events| - 1]) +
      match events[|events| - 1]
      case Received(rnti, mem, length, mac) => ArrivalsOf(rnti, PacketsOfPdu(mem, length), mac)
      case DeleteUe(_) => []
  }

  lemma {:induction false} ThroughBoth(states: map<Key, State>, a: seq<Arrival>, b: seq<Arrival>)
    ensures var o := Through(states, a);
            var r := Through(o.states, b);
            Through(states, a + b) == Traffic(r.states, o.passed + r.passed)
    decreases |a|
  {
    if a == [] {
      assert a + b == b;
    } else {
      hide PacketThrough;
      assert (a + b)[1..] == a[1..] + b && (a + b)[0] == a[0];
      var o := PacketThrough(states, a[0].key, false, a[0].bytes, a[0].mac);
      ThroughBoth(o.states, a[1..], b);
      var r := Through(o.states, a[1..]);
      Grouped(o.passed, r.passed, Through(r.states, b).passed);
    }
  }

  /** As long as no UE is deleted the course is that of the packets, one after the other. */
  lemma {:induction false} CourseIsThrough(states: map<Key, State>, events: seq<Event>)
    requires forall i :: 0 <= i < |events| ==> events[i].Received?
    ensures Course(states, events) == Through(states, AllArrivals(events))
    decreases |events|
  {
    if events != [] {
      var n := |events| - 1;
      var e := events[n];
      CourseIsThrough(states, events[..n]);
      IndicationIsArrivals(Course(states, events[..n]).states, e.rnti, PacketsOfPdu(e.mem, e.length), e.mac);
      ThroughBoth(states, AllArrivals(events[..n]), ArrivalsOf(e.rnti, PacketsOfPdu(e.mem, e.length), e.mac));
    }
  }

  // ----- Which blocks are live -----

  /** Between events the live blocks are exactly those of contexts, entities, held SDUs and delivered buffers. */
  lemma LiveAre(s: Snapshot)
    requires Quiet(s)
    ensures LiveIn(s.node) == Image(ContextNodes(s)) + Image(EntityNodes(s)) + Image(HeldOnly(HeldNodes(s))) + Members(Buffers(s.inbox))
    ensures |LiveIn(s.node)| == |s.contexts| + |s.entities| + |Holding(s)| + |s.inbox|
  {
    NoFlight(s);
    ImagesAreKinds(s.owner, ContextNodes(s), EntityNodes(s), HeldNodes(s), Buffers(s.inbox));
    KindsAreAll(s.owner);
    LiveBlocks(s);
    FlightIsKind(s);
  }

  lemma NoFlight(s: Snapshot)
    requires Quiet(s)
    ensures Flight(s) == {} && NULL !in s.owner && Owned(s)
  {
    forall p
      ensures p !in Flight(s)
    {
    }
  }

  lemma KindsAreAll(owner: map<Ptr, Role>)
    ensures owner.Keys == OfKind(owner, ContextKind) + OfKind(owner, EntityKind) + OfKind(owner, HeldKind)
                        + OfKind(owner, HandedKind) + OfKind(owner, InFlightKind)
  {
  }

  // ----- The runs -----

  lemma DeletionDone(s: Snapshot, t: Snapshot, rnti: nat, blocks: nat)
    requires Quiet(s) && Sound(t) && NULL !in t.node && Deleted(s, t, ChannelsOf(rnti, MAX_LC_ID)) && t.contexts == s.contexts - {rnti}
    ensures EventDone(s, t, DeleteUe(rnti), false, blocks)
  {
    forall p
      ensures !InFlightIn(t, p)
    {
    }
    forall r
      ensures !DeletedIn(t, r)
    {
      assert !DeletedIn(s, r);
    }
  }

  lemma NothingToDelete(s: Snapshot, rnti: nat, blocks: nat)
    requires Quiet(s) && rnti !in s.contexts
    ensures EventDone(s, s, DeleteUe(rnti), false, blocks)
  {
    forall k | k in States(s)
      ensures k !in ChannelsOf(rnti, MAX_LC_ID)
    {
      assert k in s.entities && k.rnti in s.contexts;
    }
    assert States(s) - ChannelsOf(rnti, MAX_LC_ID) == States(s);
    assert s.contexts - {rnti} == s.contexts;
  }

  lemma ReceptionDone(s: Snapshot, t: Snapshot, e: Event, lost: bool, blocks: nat)
    requires Quiet(s) && Sound(t) && NULL !in t.node && e.Received?
    requires BlockDone(s, t, e.rnti, PacketsOfPdu(e.mem, e.length), e.mac, lost, blocks)
    ensures EventDone(s, t, e, lost, blocks)
  {
    forall r
      ensures !DeletedIn(t, r)
    {
      assert !DeletedIn(s, r);
    }
  }

  /** One event. */
  method Process(layer: Layer, e: Event, beyond: nat -> byte, sizeInd: nat, sizeData: nat, stale: nat -> RlcUlDataInfo, ghost max: nat)
    returns (ghost lost: bool)
    requires layer.Ready() && Quiet(layer.now) && AllFit(layer.sizes, max) && EventOk(e, max) && sizeInd <= max && sizeData <= max
    modifies layer, layer.pool, layer.pdcp, layer.Ents(), layer.Rings()
    ensures layer.pool.Valid()
    ensures forall l :: l in layer.channels ==>
              (l in old(layer.channels) && layer.channels[l] == old(layer.channels)[l])
              || (fresh(layer.channels[l].ent) && fresh(layer.channels[l].ring))
    ensures layer.pool.exact ==>
              && layer.Ready()
              && EventDone(old(layer.now), layer.now, e, lost, |Fitting(layer.pool.config, layer.pool.home, max)|)
  {
    hide Sound, Partitioned, AtHome, Quiet, EventDone, BlockDone, Deleted, ChannelsOf, Fitting;
    lost := false;
    ghost var s, blocks := layer.now, |Fitting(layer.pool.config, layer.pool.home, max)|;
    QuietMeans(s);
    match e
    case Received(rnti, mem, length, mac) =>
      var ccch;
      ccch, lost := ReceiveBlock(layer, rnti, mem, length, beyond, mac, sizeInd, sizeData, stale, max);
      if layer.pool.exact {
        layer.pool.Fits(NULL);
        ReceptionDone(s, layer.now, e, lost, blocks);
      }
    case DeleteUe(rnti) =>
      if rnti in layer.contexts {
        layer.RlcDeleteUeContext(rnti, max);
        layer.pool.Fits(NULL);
        DeletionDone(s, layer.now, rnti, blocks);
      } else {
        NothingToDelete(s, rnti, blocks);
      }
  }

  lemma QuietMeans(s: Snapshot)
    requires Quiet(s)
    ensures NothingInFlight(s)
  {
  }

  lemma TraceMore(trace: seq<Snapshot>, events: seq<Event>, losses: seq<bool>, blocks: nat, e: Event, t: Snapshot, lost: bool)
    requires Trace(trace, events, losses, blocks) && EventDone(trace[|events|], t, e, lost, blocks) && Quiet(t)
    ensures Trace(trace + [t], events + [e], losses + [lost], blocks)
  {
    hide Quiet, EventDone;
  }

  lemma DoneIsQuiet(s: Snapshot, t: Snapshot, e: Event, lost: bool, blocks: nat)
    requires EventDone(s, t, e, lost, blocks)
    ensures Quiet(t)
  {
  }

  /**
    Every run from an empty pool, whatever the PDUs, their order and the deletions between them.  It
    ends early only at a join that is not exact.
   */
  method Run(config: seq<PoolConfig>, sizes: Sizes, events: seq<Event>, beyond: nat -> byte,
             sizeInd: nat, sizeData: nat, stale: nat -> RlcUlDataInfo, ghost max: nat)
    returns (layer: Layer, ghost trace: seq<Snapshot>, ghost losses: seq<bool>)
    requires Ascending(config) && AllFit(sizes, max) && sizeInd <= max && sizeData <= max
    requires forall i :: 0 <= i < |events| ==> EventOk(events[i], max)
    ensures layer.pool.config == config
    ensures layer.pool.exact ==>
              && layer.Ready()
              && Trace(trace, events, losses, |Fitting(config, layer.pool.home, max)|)
              && States(trace[0]) == map[] && trace[0].inbox == [] && trace[|events|] == layer.now
  {
    hide Sound, Partitioned, AtHome, Quiet, EventDone, Trace, Fitting;
    var pool := new Pool(config);
    var pdcp := new Pdcp();
    layer := new Layer(pool, pdcp, sizes);
    pool.Fits(NULL);
    EmptyIsQuiet(layer.now);
    ghost var blocks := |Fitting(config, pool.home, max)|;
    trace, losses := [layer.now], [];
    TraceBegins(layer.now, blocks);
    assert events[..0] == [];
    for i := 0 to |events|
      invariant layer.pool == pool && layer.pdcp == pdcp && layer.sizes == sizes && fresh(layer) && fresh(pool) && fresh(pdcp)
      invariant forall l :: l in layer.channels ==> fresh(layer.channels[l].ent) && fresh(layer.channels[l].ring)
      invariant layer.Ready() && Trace(trace, events[..i], losses, blocks) && |trace| == i + 1
      invariant trace[i] == layer.now && Quiet(layer.now)
      invariant States(trace[0]) == map[] && trace[0].inbox == []
    {
      ghost var s := layer.now;
      ghost var lost := Process(layer, events[i], beyond, sizeInd, sizeData, stale, max);
      if !pool.exact {
        return;
      }
      DoneIsQuiet(s, layer.now, events[i], lost, blocks);
      TraceMore(trace, events[..i], losses, blocks, events[i], layer.now, lost);
      assert events[..i + 1] == events[..i] + [events[i]];
      trace, losses := trace + [layer.now], losses + [lost];
    }
    assert events[..|events|] == events;
  }

  lemma EmptyIsQuiet(s: Snapshot)
    requires Sound(s) && NULL !in s.node && s.owner == map[] && s.contexts == map[]
    ensures Quiet(s)
  {
  }

  lemma TraceBegins(s: Snapshot, blocks: nat)
    requires Quiet(s)
    ensures Trace([s], [], [], blocks)
  {
  }
}
