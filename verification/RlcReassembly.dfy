/**
  The SDU reassembler of the acknowledged-mode RLC entity (ulp/src/lteRlc.c:812-1028) as a
  function of its state, and what a whole run of it guarantees.

  A received PDU is a sequence number and a list of data field elements (`Elem`).  The entity
  holds at most one unfinished SDU together with the sequence number of its latest piece.
 */
module RlcReassembly {
  import opened Bytes

  datatype SduStatus = FULL | START | END | MID

  datatype Elem = Elem(status: SduStatus, data: seq<byte>)

  /** One uplink measurement, copied from the MAC context of the UE when there is one. */
  datatype Report = Report(rbNum: nat, ta: int, prbPower: int)

  const MAX_REPORTS: nat := 10

  datatype Held = Nothing | Partial(sn: nat, data: seq<byte>)

  datatype State = State(held: Held, reports: seq<Report>)

  datatype Sdu = Sdu(data: seq<byte>, reports: seq<Report>)

  datatype Outcome = Outcome(state: State, delivered: seq<Sdu>)

  const Initial := State(Nothing, [])

  predicate SnEqual(x: nat, y: nat) {
    x % 1024 == y % 1024
  }

  // ----- One element -----

  /** Appends the current measurement, unless there is none or the list is full. */
  function AddReport(reports: seq<Report>, mac: Option<Report>): seq<Report> {
    if mac.Some? && |reports| < MAX_REPORTS then reports + [mac.value] else reports
  }

  /** Restarts the list with the current measurement; without one the old list stays. */
  function SetReport(reports: seq<Report>, mac: Option<Report>): seq<Report> {
    if mac.Some? then [mac.value] else reports
  }

  /** RlcReassembleFirstSduSegment: no unfinished SDU is held. */
  function First(reports: seq<Report>, sn: nat, e: Elem, mac: Option<Report>): Outcome {
    match e.status
    case FULL => Outcome(State(Nothing, []), [Sdu(e.data, SetReport(reports, mac))])
    case START => Outcome(State(Partial(sn, e.data), SetReport(reports, mac)), [])
    case _ => Outcome(State(Nothing, reports), [])
  }

  /** RlcReassembleInCmpAMSdu: the unfinished SDU `h` is held. */
  function InCmp(h: Held, reports: seq<Report>, sn: nat, e: Elem, mac: Option<Report>): Outcome
    requires h.Partial?
  {
    if SnEqual(sn, h.sn + 1) || SnEqual(sn, h.sn) then
      match e.status
      case END => Outcome(State(Nothing, []), [Sdu(h.data + e.data, AddReport(reports, mac))])
      case MID =>
        if !SnEqual(sn, h.sn) then
          Outcome(State(Partial(sn, h.data + e.data), AddReport(reports, mac)), [])
        else
          Outcome(State(h, reports), [])
      case FULL => Outcome(State(Nothing, []), [Sdu(e.data, SetReport(reports, mac))])
      case START => Outcome(State(Partial(sn, e.data), reports), [])
    else if e.status == FULL || e.status == START then
      First(reports, sn, e, mac)
    else
      Outcome(State(h, reports), [])
  }

  function Step(st: State, sn: nat, e: Elem, mac: Option<Report>): Outcome {
    if st.held.Partial? then InCmp(st.held, st.reports, sn, e, mac)
    else First(st.reports, sn, e, mac)
  }

  /** RlcReassembleAmdDfeQ: the elements of one PDU, in order. */
  function Receive(st: State, sn: nat, elems: seq<Elem>, mac: Option<Report>): Outcome
    decreases |elems|
  {
    if elems == [] then Outcome(st, [])
    else
      var o := Step(st, sn, elems[0], mac);
      var r := Receive(o.state, sn, elems[1..], mac);
      Outcome(r.state, o.delivered + r.delivered)
  }

  lemma ReceiveFirst(st: State, sn: nat, e: Elem, rest: seq<Elem>, mac: Option<Report>)
    ensures var o := Step(st, sn, e, mac);
            var r := Receive(o.state, sn, rest, mac);
            Receive(st, sn, [e] + rest, mac) == Outcome(r.state, o.delivered + r.delivered)
  {
    hide Step;
    assert ([e] + rest)[1..] == rest;
  }

  lemma ReceiveNothing(st: State, sn: nat, b: seq<Elem>, mac: Option<Report>)
    ensures Receive(st, sn, [], mac) == Outcome(st, [])
    ensures var r := Receive(st, sn, b, mac);
            Receive(st, sn, [] + b, mac) == Outcome(r.state, [] + r.delivered)
  {
    hide Step;
    assert [] + b == b;
  }

  lemma HeadAndRest<T>(a: seq<T>, b: seq<T>)
    requires a != []
    ensures a == [a[0]] + a[1..] && a + b == [a[0]] + (a[1..] + b)
  {
  }

  lemma Regroup<T>(a: seq<T>, b: seq<T>, c: seq<T>)
    ensures a + (b + c) == (a + b) + c
  {
  }

  lemma {:induction false} ReceiveAppend(st: State, sn: nat, a: seq<Elem>, b: seq<Elem>, mac: Option<Report>)
    ensures var o := Receive(st, sn, a, mac);
            var r := Receive(o.state, sn, b, mac);
            Receive(st, sn, a + b, mac) == Outcome(r.state, o.delivered + r.delivered)
    decreases |a|
  {
    hide *;
    if a == [] {
      ReceiveNothing(st, sn, b, mac);
    } else {
      var first := Step(st, sn, a[0], mac);
      var o := Receive(first.state, sn, a[1..], mac);
      var r := Receive(o.state, sn, b, mac);
      HeadAndRest(a, b);
      ReceiveFirst(st, sn, a[0], a[1..], mac);
      ReceiveFirst(st, sn, a[0], a[1..] + b, mac);
      ReceiveAppend(first.state, sn, a[1..], b, mac);
      Regroup(first.delivered, o.delivered, r.delivered);
    }
  }

  /** With `done` delivered so far and `elems` to come, the PDU ends up in `total`. */
  ghost predicate LeadsTo(st: State, sn: nat, elems: seq<Elem>, mac: Option<Report>, done: seq<Sdu>, total: Outcome) {
    var r := Receive(st, sn, elems, mac);
    total == Outcome(r.state, done + r.delivered)
  }

  lemma LeadsOn(st: State, sn: nat, elems: seq<Elem>, mac: Option<Report>, done: seq<Sdu>, total: Outcome)
    requires elems != [] && LeadsTo(st, sn, elems, mac, done, total)
    ensures var o := Step(st, sn, elems[0], mac);
            LeadsTo(o.state, sn, elems[1..], mac, done + o.delivered, total)
  {
    var o := Step(st, sn, elems[0], mac);
    var r := Receive(o.state, sn, elems[1..], mac);
    assert done + (o.delivered + r.delivered) == (done + o.delivered) + r.delivered;
  }

  // ----- Safety over every run -----

  datatype Event = Event(sn: nat, elem: Elem, mac: Option<Report>)

  /** The entity after the first `k` events, whatever they are, starting with nothing held. */
  function Run(events: seq<Event>, k: nat, reports: seq<Report>): Outcome
    requires k <= |events|
  {
    if k == 0 then Outcome(State(Nothing, reports), [])
    else
      var r := Run(events, k - 1, reports);
      var o := Step(r.state, events[k - 1].sn, events[k - 1].elem, events[k - 1].mac);
      Outcome(o.state, r.delivered + o.delivered)
  }

  /** Strictly increasing positions of `events`. */
  ghost predicate Positions(ix: seq<nat>, events: seq<Event>) {
    && (forall j :: 0 <= j < |ix| ==> ix[j] < |events|)
    && (forall i, j :: 0 <= i < j < |ix| ==> ix[i] < ix[j])
  }

  ghost function Gather(events: seq<Event>, ix: seq<nat>): seq<byte>
    requires Positions(ix, events)
  {
    if ix == [] then []
    else Gather(events, ix[..|ix| - 1]) + events[ix[|ix| - 1]].elem.data
  }

  /** The piece that may follow one numbered `sn`: a MID numbered next, or an END numbered same or next. */
  predicate Continues(e: Event, sn: nat) {
    || (e.elem.status == MID && SnEqual(e.sn, sn + 1))
    || (e.elem.status == END && (SnEqual(e.sn, sn) || SnEqual(e.sn, sn + 1)))
  }

  /** What is held after event `e`: the reassembler with deliveries and measurements left out. */
  function HeldNext(h: Held, e: Event): Held {
    match e.elem.status
    case START => Partial(e.sn, e.elem.data)
    case FULL => Nothing
    case MID => if h.Partial? && Continues(e, h.sn) then Partial(e.sn, h.data + e.elem.data) else h
    case END => if h.Partial? && Continues(e, h.sn) then Nothing else h
  }

  function HeldAt(events: seq<Event>, k: nat): Held
    requires k <= |events|
  {
    if k == 0 then Nothing else HeldNext(HeldAt(events, k - 1), events[k - 1])
  }

  lemma StepSummary(st: State, e: Event)
    ensures var o := Step(st, e.sn, e.elem, e.mac);
            && o.state.held == HeldNext(st.held, e)
            && (if e.elem.status == FULL then |o.delivered| == 1 && o.delivered[0].data == e.elem.data
                else if e.elem.status == END && st.held.Partial? && Continues(e, st.held.sn) then
                  |o.delivered| == 1 && o.delivered[0].data == st.held.data + e.elem.data
                else o.delivered == [])
  {
  }

  lemma {:induction false} RunHolds(events: seq<Event>, k: nat, reports: seq<Report>)
    requires k <= |events|
    ensures Run(events, k, reports).state.held == HeldAt(events, k)
  {
    if k > 0 {
      RunHolds(events, k - 1, reports);
      StepSummary(Run(events, k - 1, reports).state, events[k - 1]);
    }
  }

  /** Strictly between `lo` and `hi` nothing opens an SDU and nothing continues one at `sn`. */
  ghost predicate Quiet(events: seq<Event>, lo: nat, hi: nat, sn: nat)
    requires hi <= |events|
  {
    forall k :: lo < k < hi ==>
      events[k].elem.status != START && events[k].elem.status != FULL && !Continues(events[k], sn)
  }

  /** START MID*: each piece is the first one after its predecessor that continues it. */
  ghost predicate Opens(events: seq<Event>, ix: seq<nat>) {
    && Positions(ix, events)
    && ix != []
    && events[ix[0]].elem.status == START
    && (forall j :: 0 < j < |ix| ==> events[ix[j]].elem.status == MID)
    && (forall j :: 0 < j < |ix| ==> Continues(events[ix[j]], events[ix[j - 1]].sn))
    && (forall j :: 0 < j < |ix| ==> Quiet(events, ix[j - 1], ix[j], events[ix[j - 1]].sn))
  }

  /** `data` is one FULL element, or START MID* END, read off the positions `ix` in arrival order. */
  ghost predicate Explains(events: seq<Event>, ix: seq<nat>, data: seq<byte>) {
    && Positions(ix, events)
    && ix != []
    && data == Gather(events, ix)
    && var last := |ix| - 1;
       if last == 0 then events[ix[0]].elem.status == FULL
       else
         && Opens(events, ix[..last])
         && Quiet(events, ix[last - 1], ix[last], events[ix[last - 1]].sn)
         && events[ix[last]].elem.status == END
         && Continues(events[ix[last]], events[ix[last - 1]].sn)
  }

  /** The SDU held before event `k` is what the positions `ix` spell. */
  ghost predicate HeldExplained(events: seq<Event>, k: nat, ix: seq<nat>, held: Held)
    requires k <= |events|
  {
    match held
    case Nothing => ix == []
    case Partial(sn, data) =>
      && Opens(events, ix)
      && ix[|ix| - 1] < k
      && sn == events[ix[|ix| - 1]].sn
      && Quiet(events, ix[|ix| - 1], k, sn)
      && data == Gather(events, ix)
  }

  lemma SinglePiece(events: seq<Event>, k: nat)
    requires k < |events|
    ensures Gather(events, [k]) == events[k].elem.data
    ensures events[k].elem.status == FULL ==> Explains(events, [k], events[k].elem.data)
    ensures events[k].elem.status == START ==>
              HeldExplained(events, k + 1, [k], Partial(events[k].sn, events[k].elem.data))
  {
    assert [k][..0] == [];
    assert Gather(events, [k]) == Gather(events, []) + events[k].elem.data;
  }

  lemma MiddlePiece(events: seq<Event>, k: nat, ix: seq<nat>, h: Held)
    requires k < |events| && h.Partial? && HeldExplained(events, k, ix, h)
    requires events[k].elem.status == MID && Continues(events[k], h.sn)
    ensures HeldExplained(events, k + 1, ix + [k], Partial(events[k].sn, h.data + events[k].elem.data))
  {
    OpensMore(events, ix, k);
    NothingBetween(events, k, events[k].sn);
    hide Opens, Quiet, Gather;
    assert (ix + [k])[|ix + [k]| - 1] == k;
  }

  lemma NothingBetween(events: seq<Event>, k: nat, sn: nat)
    requires k < |events|
    ensures Quiet(events, k, k + 1, sn)
  {
  }

  lemma OpensMore(events: seq<Event>, ix: seq<nat>, k: nat)
    requires Opens(events, ix) && ix[|ix| - 1] < k < |events| && Quiet(events, ix[|ix| - 1], k, events[ix[|ix| - 1]].sn)
    requires events[k].elem.status == MID && Continues(events[k], events[ix[|ix| - 1]].sn)
    ensures Opens(events, ix + [k]) && Gather(events, ix + [k]) == Gather(events, ix) + events[k].elem.data
  {
    PositionsMore(events, ix, k);
    hide Quiet, Continues, Positions;
    var jx := ix + [k];
    forall j | 0 < j < |jx|
      ensures && events[jx[j]].elem.status == MID && Continues(events[jx[j]], events[jx[j - 1]].sn)
              && Quiet(events, jx[j - 1], jx[j], events[jx[j - 1]].sn)
    {
      assert jx[j - 1] == ix[j - 1] && (j < |ix| ==> jx[j] == ix[j]);
    }
  }

  lemma PositionsMore(events: seq<Event>, ix: seq<nat>, k: nat)
    requires Positions(ix, events) && (ix != [] ==> ix[|ix| - 1] < k) && k < |events|
    ensures Positions(ix + [k], events) && Gather(events, ix + [k]) == Gather(events, ix) + events[k].elem.data
    ensures forall j :: 0 <= j < |ix + [k]| ==> (ix + [k])[j] < |events| && (j > 0 ==> (ix + [k])[j - 1] < (ix + [k])[j])
  {
    assert (ix + [k])[..|ix|] == ix && (ix + [k])[|ix|] == k;
  }

  lemma NothingHeld(events: seq<Event>, k: nat)
    requires k <= |events|
    ensures HeldExplained(events, k, [], Nothing)
  {
  }

  lemma LastPiece(events: seq<Event>, k: nat, ix: seq<nat>, h: Held)
    requires k < |events| && h.Partial? && HeldExplained(events, k, ix, h)
    requires events[k].elem.status == END && Continues(events[k], h.sn)
    ensures Explains(events, ix + [k], h.data + events[k].elem.data)
  {
    assert (ix + [k])[..|ix|] == ix;
  }

  lemma HeldStays(events: seq<Event>, k: nat, ix: seq<nat>, h: Held)
    requires k < |events| && HeldExplained(events, k, ix, h)
    requires HeldNext(h, events[k]) == h && events[k].elem.status != START
    ensures HeldExplained(events, k + 1, ix, h)
  {
  }

  /** Whatever is held is START MID* as it arrived. */
  lemma {:induction false} HeldIsExplained(events: seq<Event>, k: nat)
    returns (ix: seq<nat>)
    requires k <= |events|
    ensures HeldExplained(events, k, ix, HeldAt(events, k))
  {
    hide HeldExplained, Opens, Quiet, Gather, Explains;
    NothingHeld(events, k);
    if k == 0 {
      ix := [];
    } else {
      var before := HeldIsExplained(events, k - 1);
      var h, e := HeldAt(events, k - 1), events[k - 1];
      if e.elem.status == START {
        SinglePiece(events, k - 1);
        ix := [k - 1];
      } else if HeldAt(events, k).Nothing? {
        ix := [];
      } else if e.elem.status == MID && Continues(e, h.sn) {
        MiddlePiece(events, k - 1, before, h);
        ix := before + [k - 1];
      } else {
        HeldStays(events, k - 1, before, h);
        ix := before;
      }
    }
  }

  lemma LastButOne(events: seq<Event>, ix: seq<nat>)
    requires Opens(events, ix) && |ix| > 1
    ensures var init := ix[..|ix| - 1];
            var h := Partial(events[init[|init| - 1]].sn, Gather(events, init));
            && HeldExplained(events, ix[|ix| - 1], init, h)
            && HeldNext(h, events[ix[|ix| - 1]]) == Partial(events[ix[|ix| - 1]].sn, Gather(events, ix))
  {
  }

  /** Conversely, START MID* with nothing disturbing it is what the entity holds. */
  lemma {:induction false} ExplainedIsHeld(events: seq<Event>, k: nat, ix: seq<nat>)
    requires k <= |events| && Opens(events, ix) && ix[|ix| - 1] < k
    requires Quiet(events, ix[|ix| - 1], k, events[ix[|ix| - 1]].sn)
    ensures HeldAt(events, k) == Partial(events[ix[|ix| - 1]].sn, Gather(events, ix))
    decreases k
  {
    var last := |ix| - 1;
    if ix[last] < k - 1 {
      ExplainedIsHeld(events, k - 1, ix);
    } else if last == 0 {
      SinglePiece(events, k - 1);
      assert ix == [k - 1];
    } else {
      LastButOne(events, ix);
      ExplainedIsHeld(events, k - 1, ix[..last]);
    }
  }

  /**
    Whatever arrives (lost, repeated or reordered PDUs), event `k` makes the entity hand up `data`
    if and only if `data` is one FULL element or START MID* END that ends at `k`, with the sequence
    numbers and the quiet gaps that `Explains` asks for.
   */
  lemma {:induction false} DeliversExactly(events: seq<Event>, k: nat, reports: seq<Report>, data: seq<byte>)
    requires k < |events|
    ensures var o := Step(Run(events, k, reports).state, events[k].sn, events[k].elem, events[k].mac);
            && |o.delivered| <= 1
            && ((o.delivered != [] && o.delivered[0].data == data) <==>
                exists ix :: Explains(events, ix, data) && ix[|ix| - 1] == k)
  {
    var st, e := Run(events, k, reports).state, events[k];
    var o := Step(st, e.sn, e.elem, e.mac);
    RunHolds(events, k, reports);
    StepSummary(st, e);
    if o.delivered != [] && o.delivered[0].data == data {
      if e.elem.status == FULL {
        SinglePiece(events, k);
        assert Explains(events, [k], data);
      } else {
        var ix := HeldIsExplained(events, k);
        LastPiece(events, k, ix, st.held);
        assert Explains(events, ix + [k], data);
      }
    }
    if ix :| Explains(events, ix, data) && ix[|ix| - 1] == k {
      ExplainedIsDelivered(events, k, ix, data);
    }
  }

  lemma ExplainedIsDelivered(events: seq<Event>, k: nat, ix: seq<nat>, data: seq<byte>)
    requires k < |events| && Explains(events, ix, data) && ix[|ix| - 1] == k
    ensures var h, e := HeldAt(events, k), events[k];
            || (e.elem.status == FULL && data == e.elem.data)
            || (e.elem.status == END && h.Partial? && Continues(e, h.sn) && data == h.data + e.elem.data)
  {
    if |ix| == 1 {
      assert ix == [k];
      SinglePiece(events, k);
    } else {
      ExplainedIsHeld(events, k, ix[..|ix| - 1]);
    }
  }

  /** The last piece of `jx` at or before `k`, a position inside the span of `jx`. */
  lemma PieceBefore(jx: seq<nat>, k: nat) returns (j: nat)
    requires |jx| > 0 && jx[0] <= k < jx[|jx| - 1]
    ensures j < |jx| - 1 && jx[j] <= k < jx[j + 1]
  {
    j := 0;
    while jx[j + 1] <= k
      invariant 0 <= j < |jx| - 1 && jx[j] <= k
      decreases |jx| - j
    {
      j := j + 1;
    }
  }

  lemma OpensPrefix(events: seq<Event>, jx: seq<nat>, d: seq<byte>, j: nat)
    requires Explains(events, jx, d) && j < |jx| - 1
    ensures Opens(events, jx[..j + 1])
    ensures Quiet(events, jx[j], jx[j + 1], events[jx[j]].sn)
  {
    hide Gather, Quiet, Continues;
    assert jx[..|jx| - 1][..j + 1] == jx[..j + 1];
  }

  /** No event serves two SDUs: an SDU starts after the end of every earlier one. */
  lemma DeliveriesAreDisjoint(events: seq<Event>, ix: seq<nat>, d: seq<byte>, jx: seq<nat>, d': seq<byte>)
    requires Explains(events, ix, d) && Explains(events, jx, d')
    requires ix[|ix| - 1] < jx[|jx| - 1]
    ensures ix[|ix| - 1] < jx[0]
  {
    hide Gather, HeldNext;
    var k := ix[|ix| - 1];
    if jx[0] <= k {
      var j := PieceBefore(jx, k);
      OpensPrefix(events, jx, d', j);
      ExplainedIsDelivered(events, k, ix, d);
      // event k would end an SDU while the pieces of jx up to j are held, undisturbed
      if jx[j] < k { ExplainedIsHeld(events, k, jx[..j + 1]); }
    }
  }

  // ----- The measurements that go up with an SDU -----

  /** The list of measurements has ten places; it never needs more, nor does a delivered SDU. */
  lemma {:induction false} ReportsFit(st: State, sn: nat, elems: seq<Elem>, mac: Option<Report>)
    requires |st.reports| <= MAX_REPORTS
    ensures var r := Receive(st, sn, elems, mac);
            |r.state.reports| <= MAX_REPORTS && forall i :: 0 <= i < |r.delivered| ==> |r.delivered[i].reports| <= MAX_REPORTS
    decreases |elems|
  {
    if elems != [] {
      ReportsFit(Step(st, sn, elems[0], mac).state, sn, elems[1..], mac);
    }
  }

  /** The measurements that came with the pieces at `ix`, in order. */
  ghost function Measured(events: seq<Event>, ix: seq<nat>): seq<Report>
    requires Positions(ix, events)
  {
    if ix == [] then []
    else Measured(events, ix[..|ix| - 1]) + Own(events[ix[|ix| - 1]].mac)
  }

  function Own(mac: Option<Report>): seq<Report> {
    if mac.Some? then [mac.value] else []
  }

  function FirstTen(reports: seq<Report>): seq<Report> {
    if |reports| <= MAX_REPORTS then reports else reports[..MAX_REPORTS]
  }

  /** The list of measurements when event `k` arrives. */
  function ReportsAt(events: seq<Event>, k: nat): seq<Report>
    requires k <= |events|
  {
    Run(events, k, []).state.reports
  }

  /** Event `f` has the number of the piece held, or the next one. */
  predicate InWindow(events: seq<Event>, f: nat)
    requires f < |events|
  {
    var h := HeldAt(events, f);
    h.Partial? && (SnEqual(events[f].sn, h.sn + 1) || SnEqual(events[f].sn, h.sn))
  }

  /**
    The first piece of an SDU finds or makes the list clean: with a measurement it is a FULL, or a
    START outside the window of what was held; without one the list must have been empty.
   */
  predicate StartsClean(events: seq<Event>, f: nat)
    requires f < |events|
  {
    if events[f].mac.Some? then events[f].elem.status == FULL || !InWindow(events, f)
    else ReportsAt(events, f) == []
  }

  /** No two events come with the same measurement, so that a measurement tells where it came from. */
  ghost predicate Distinct(events: seq<Event>) {
    forall i, j :: 0 <= i < j < |events| && events[i].mac.Some? ==> events[i].mac != events[j].mac
  }

  lemma StepReports(st: State, e: Event)
    ensures var r, near := Step(st, e.sn, e.elem, e.mac).state.reports,
                  st.held.Partial? && (SnEqual(e.sn, st.held.sn + 1) || SnEqual(e.sn, st.held.sn));
            match e.elem.status
            case FULL => r == []
            case START => r == if near then st.reports else SetReport(st.reports, e.mac)
            case _ =>
              if !st.held.Partial? || !Continues(e, st.held.sn) then r == st.reports
              else r == if e.elem.status == MID && !SnEqual(e.sn, st.held.sn) then AddReport(st.reports, e.mac)
                        else if e.elem.status == MID then st.reports else []
  {
  }

  lemma {:induction false} ReportsFew(events: seq<Event>, k: nat)
    requires k <= |events|
    ensures |ReportsAt(events, k)| <= MAX_REPORTS
  {
    if k > 0 {
      ReportsFew(events, k - 1);
      StepReports(Run(events, k - 1, []).state, events[k - 1]);
      hide Step;
    }
  }

  /** Every measurement in the list came with an event of the run. */
  lemma {:induction false} ReportsCame(events: seq<Event>, k: nat, r: Report) returns (i: nat)
    requires k <= |events| && r in ReportsAt(events, k)
    ensures i < k && events[i].mac == Some(r)
  {
    StepReports(Run(events, k - 1, []).state, events[k - 1]);
    hide Step;
    if r in ReportsAt(events, k - 1) {
      i := ReportsCame(events, k - 1, r);
    } else {
      i := k - 1;
    }
  }

  lemma MeasuredMore(events: seq<Event>, ix: seq<nat>)
    requires Positions(ix, events) && |ix| > 1
    ensures Positions(ix[1..], events) && Positions(ix[..|ix| - 1][1..], events)
    ensures Measured(events, ix[1..]) == Measured(events, ix[..|ix| - 1][1..]) + Own(events[ix[|ix| - 1]].mac)
  {
    assert ix[1..][..|ix[1..]| - 1] == ix[..|ix| - 1][1..];
  }

  lemma {:induction false} MeasuredFirst(events: seq<Event>, ix: seq<nat>)
    requires Positions(ix, events) && ix != []
    ensures Positions(ix[1..], events)
    ensures Measured(events, ix) == Own(events[ix[0]].mac) + Measured(events, ix[1..])
  {
    if |ix| > 1 {
      MeasuredFirst(events, ix[..|ix| - 1]);
      MeasuredMore(events, ix);
    } else {
      assert ix[..0] == [] && ix[1..] == [];
    }
  }

  lemma {:induction false} MeasuredCame(events: seq<Event>, ix: seq<nat>, r: Report) returns (j: nat)
    requires Positions(ix, events) && r in Measured(events, ix)
    ensures j < |ix| && events[ix[j]].mac == Some(r)
  {
    var last := |ix| - 1;
    if r in Measured(events, ix[..last]) {
      j := MeasuredCame(events, ix[..last], r);
    } else {
      j := last;
    }
  }

  lemma NoMore(events: seq<Event>, a: seq<Report>)
    requires |a| <= MAX_REPORTS
    ensures a == FirstTen(a + Measured(events, []))
  {
    assert a + [] == a;
  }

  lemma AddToTen(a: seq<Report>, b: seq<Report>, mac: Option<Report>)
    ensures AddReport(FirstTen(a + b), mac) == FirstTen(a + (b + Own(mac)))
  {
    assert a + (b + Own(mac)) == (a + b) + Own(mac);
  }

  /** While an SDU is held undisturbed, its next event leaves the list or adds to it. */
  lemma HeldStep(events: seq<Event>, k: nat, ix: seq<nat>)
    requires k < |events| && Opens(events, ix) && ix[|ix| - 1] < k
    requires Quiet(events, ix[|ix| - 1], k, events[ix[|ix| - 1]].sn)
    requires events[k].elem.status == MID || events[k].elem.status == END
    ensures !Continues(events[k], events[ix[|ix| - 1]].sn) ==> ReportsAt(events, k + 1) == ReportsAt(events, k)
    ensures events[k].elem.status == MID && Continues(events[k], events[ix[|ix| - 1]].sn) ==>
              ReportsAt(events, k + 1) == AddReport(ReportsAt(events, k), events[k].mac)
  {
    ExplainedIsHeld(events, k, ix);
    RunHolds(events, k, []);
    StepReports(Run(events, k, []).state, events[k]);
    hide Opens, Quiet, Positions, Gather, Step;
  }

  /** While START MID* is held, the list is what the START left and the measurements of the MIDs. */
  lemma {:induction false} HeldReports(events: seq<Event>, k: nat, ix: seq<nat>)
    requires k <= |events| && Opens(events, ix) && ix[|ix| - 1] < k
    requires Quiet(events, ix[|ix| - 1], k, events[ix[|ix| - 1]].sn)
    ensures Positions(ix[1..], events)
    ensures ReportsAt(events, k) == FirstTen(ReportsAt(events, ix[0] + 1) + Measured(events, ix[1..]))
    decreases k
  {
    hide Run, Step, HeldAt, HeldNext, Gather, Continues, AddReport, Own, ReportsAt, Measured, FirstTen;
    var last := |ix| - 1;
    ReportsFew(events, ix[0] + 1);
    if ix[last] < k - 1 {
      HeldReports(events, k - 1, ix);
      HeldStep(events, k - 1, ix);
    } else if last == 0 {
      NoMore(events, ReportsAt(events, ix[0] + 1));
      assert ix[1..] == [];
    } else {
      var init := ix[..last];
      LastButOne(events, ix);
      HeldReports(events, k - 1, init);
      HeldStep(events, k - 1, init);
      MeasuredMore(events, ix);
      AddToTen(ReportsAt(events, ix[0] + 1), Measured(events, init[1..]), events[k - 1].mac);
    }
  }

  /** What the first piece at `f` leaves in the list: its own measurement if it starts clean. */
  lemma FirstReport(events: seq<Event>, f: nat)
    requires f < |events| && events[f].elem.status == START
    ensures StartsClean(events, f) ==> ReportsAt(events, f + 1) == Own(events[f].mac)
    ensures !StartsClean(events, f) ==> ReportsAt(events, f + 1) == ReportsAt(events, f)
  {
    RunHolds(events, f, []);
    StepReports(Run(events, f, []).state, events[f]);
  }

  /** Without a clean start the list cannot be right: its first measurement is not the SDU's. */
  lemma WrongFirst(events: seq<Event>, ix: seq<nat>)
    requires Distinct(events) && Positions(ix, events) && ix != [] && !StartsClean(events, ix[0])
    ensures Positions(ix[1..], events)
    ensures FirstTen(ReportsAt(events, ix[0]) + Measured(events, ix[1..])) != FirstTen(Measured(events, ix))
  {
    hide Run, Step, InWindow, HeldAt, Measured, ReportsAt;
    var f, rest := ix[0], ix[1..];
    MeasuredFirst(events, ix);
    var before, own := ReportsAt(events, f), Measured(events, rest);
    if before != [] {
      var i := ReportsCame(events, f, before[0]);
      assert FirstTen(before + own)[0] == before[0];
      if FirstTen(before + own) == FirstTen(Measured(events, ix)) {
        assert FirstTen(Measured(events, ix))[0] == before[0] && before[0] in Measured(events, ix);
        var j := MeasuredCame(events, ix, before[0]);
      }
    } else if own != [] {
      var j := MeasuredCame(events, rest, own[0]);
      assert before + own == own;
      assert FirstTen(Measured(events, ix))[0] == events[f].mac.value;
      assert f < rest[j];
    }
  }

  /** The list that goes up with the SDU of the pieces `ix`, the last of them at `k`. */
  ghost function Carried(events: seq<Event>, k: nat, ix: seq<nat>): seq<Report>
    requires k < |events| && Positions(ix, events) && ix != [] && Positions(ix[1..], events)
  {
    if |ix| == 1 then SetReport(ReportsAt(events, k), events[k].mac)
    else FirstTen(ReportsAt(events, ix[0] + 1) + Measured(events, ix[1..]))
  }

  lemma DeliveredReports(events: seq<Event>, k: nat, ix: seq<nat>, data: seq<byte>)
    requires k < |events| && Explains(events, ix, data) && ix[|ix| - 1] == k
    ensures Positions(ix[1..], events)
    ensures events[ix[0]].elem.status == if |ix| > 1 then START else FULL
    ensures var o := Step(Run(events, k, []).state, events[k].sn, events[k].elem, events[k].mac);
            o.delivered == [Sdu(data, Carried(events, k, ix))]
  {
    var st, e := Run(events, k, []).state, events[k];
    RunHolds(events, k, []);
    if |ix| == 1 {
      ExplainedIsDelivered(events, k, ix, data);
      FullReports(st, e);
    } else {
      var init := ix[..|ix| - 1];
      ExplainedIsHeld(events, k, init);
      HeldReports(events, k, init);
      EndReports(st, e);
      MeasuredMore(events, ix);
      AddToTen(ReportsAt(events, ix[0] + 1), Measured(events, init[1..]), e.mac);
    }
  }

  lemma FullReports(st: State, e: Event)
    requires e.elem.status == FULL
    ensures Step(st, e.sn, e.elem, e.mac).delivered == [Sdu(e.elem.data, SetReport(st.reports, e.mac))]
  {
  }

  lemma EndReports(st: State, e: Event)
    requires e.elem.status == END && st.held.Partial? && Continues(e, st.held.sn)
    ensures Step(st, e.sn, e.elem, e.mac).delivered == [Sdu(st.held.data + e.elem.data, AddReport(st.reports, e.mac))]
  {
  }

  lemma AtMostOne(mac: Option<Report>)
    ensures FirstTen(Own(mac)) == Own(mac) && Own(mac) + [] == Own(mac)
  {
  }

  /** The list is the SDU's own exactly if its first piece starts clean: for one FULL. */
  lemma FullCarries(events: seq<Event>, k: nat)
    requires k < |events| && events[k].elem.status == FULL
    ensures Positions([k], events) && Positions([k][1..], events)
    ensures Carried(events, k, [k]) == FirstTen(Measured(events, [k])) <==> StartsClean(events, k)
  {
    MeasuredFirst(events, [k]);
    assert [k][1..] == [];
    AtMostOne(events[k].mac);
    hide FirstTen, Run, InWindow;
  }

  /** The same for several pieces. */
  lemma StartCarries(events: seq<Event>, k: nat, ix: seq<nat>)
    requires k < |events| && Positions(ix, events) && |ix| > 1 && events[ix[0]].elem.status == START
    ensures Positions(ix[1..], events)
    ensures StartsClean(events, ix[0]) ==> Carried(events, k, ix) == FirstTen(Measured(events, ix))
    ensures !StartsClean(events, ix[0]) && Distinct(events) ==> Carried(events, k, ix) != FirstTen(Measured(events, ix))
  {
    hide InWindow, Step, FirstTen, Measured, Run, Distinct, StartsClean;
    MeasuredFirst(events, ix);
    FirstReport(events, ix[0]);
    if !StartsClean(events, ix[0]) && Distinct(events) { WrongFirst(events, ix); }
  }

  /**
    The measurements that go up with an SDU are the first ten of its own pieces if and only if its
    first piece starts clean.
   */
  lemma OwnMeasurements(events: seq<Event>, k: nat, ix: seq<nat>, data: seq<byte>)
    requires k < |events| && Explains(events, ix, data) && ix[|ix| - 1] == k
    ensures var o := Step(Run(events, k, []).state, events[k].sn, events[k].elem, events[k].mac);
            && |o.delivered| == 1
            && (StartsClean(events, ix[0]) ==> o.delivered[0] == Sdu(data, FirstTen(Measured(events, ix))))
            && (!StartsClean(events, ix[0]) && Distinct(events) ==>
                  o.delivered[0].reports != FirstTen(Measured(events, ix)))
  {
    hide InWindow, Step, FirstTen, Measured, Run, Distinct, StartsClean, Carried, Opens, Quiet, Gather;
    DeliveredReports(events, k, ix, data);
    if |ix| == 1 {
      assert ix == [k];
      FullCarries(events, k);
    } else {
      StartCarries(events, k, ix);
    }
  }

  /** An SDU of two pieces, sent after one that was cut off, goes up with a measurement of the other. */
  lemma StaleReportGoesUp(a: Report, b: Report, c: Report)
    ensures var held := State(Partial(4, [1]), [a]);
            var first := Step(held, 5, Elem(START, [2]), Some(b));
            var last := Step(first.state, 6, Elem(END, [3]), Some(c));
            last.delivered == [Sdu([2, 3], [a, c])]
  {
    var held := State(Partial(4, [1]), [a]);
    var first := Step(held, 5, Elem(START, [2]), Some(b));
    assert first.state == State(Partial(5, [2]), [a]);
    var data: seq<byte>, more: seq<byte> := [2], [3];
    assert data + more == [2, 3] && [a] + [c] == [a, c];
    assert Step(first.state, 6, Elem(END, [3]), Some(c)).delivered == [Sdu(data + more, [a] + [c])];
  }

  /** Outside the window it happens too, when the first piece comes without a measurement of its own. */
  lemma StaleOutsideWindow(a: Report, c: Report)
    ensures var held := State(Partial(4, [1]), [a]);
            var first := Step(held, 9, Elem(START, [2]), None);
            var last := Step(first.state, 10, Elem(END, [3]), Some(c));
            last.delivered == [Sdu([2, 3], [a, c])]
    ensures Step(State(Partial(4, [1]), [a]), 9, Elem(FULL, [2]), None).delivered == [Sdu([2], [a])]
  {
    var held := State(Partial(4, [1]), [a]);
    assert Step(held, 9, Elem(START, [2]), None).state == State(Partial(9, [2]), [a]);
    var data: seq<byte>, more: seq<byte> := [2], [3];
    assert data + more == [2, 3] && [a] + [c] == [a, c];
    assert Step(State(Partial(9, [2]), [a]), 10, Elem(END, [3]), Some(c)).delivered == [Sdu(data + more, [a] + [c])];
  }
}
