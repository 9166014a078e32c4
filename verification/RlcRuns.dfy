/**
  Whole runs of the receiver over any octet strings: what is delivered, from which elements, in
  which order, and with which measurements.
 */
module RlcRuns {
  import opened Bytes
  import opened RlcReassembly
  import opened RlcCodec
  import opened RlcEndToEnd

  /** The position of the last piece of a group, which is never empty. */
  function Last(ix: seq<nat>): nat {
    if ix == [] then 0 else ix[|ix| - 1]
  }

  // ----- All deliveries of a run -----

  /** SDU `j` is what the pieces at `how[j]` spell; the groups are apart, and in order. */
  ghost predicate Spelled(events: seq<Event>, k: nat, sdus: seq<Sdu>, how: seq<seq<nat>>) {
    && |how| == |sdus|
    && (forall j :: 0 <= j < |how| ==> Explains(events, how[j], sdus[j].data) && Last(how[j]) < k)
    && (forall i, j :: 0 <= i < j < |how| ==> how[j] != [] && Last(how[i]) < how[j][0])
  }

  /** No group of pieces that ends before `k` is left out. */
  ghost predicate NoneMissing(events: seq<Event>, k: nat, sdus: seq<Sdu>, how: seq<seq<nat>>) {
    forall ix, data :: Explains(events, ix, data) && Last(ix) < k ==> Among(sdus, how, ix, data)
  }

  ghost predicate Among(sdus: seq<Sdu>, how: seq<seq<nat>>, ix: seq<nat>, data: seq<byte>) {
    exists j :: 0 <= j < |sdus| && j < |how| && Last(how[j]) == Last(ix) && sdus[j].data == data
  }

  /** Every SDU whose first piece starts clean has the first ten measurements of its own pieces. */
  ghost predicate OwnReports(events: seq<Event>, sdus: seq<Sdu>, how: seq<seq<nat>>) {
    forall j :: 0 <= j < |sdus| && j < |how| ==> OwnReport(events, sdus[j], how[j])
  }

  ghost predicate OwnReport(events: seq<Event>, sdu: Sdu, ix: seq<nat>) {
    Positions(ix, events) && ix != [] && StartsClean(events, ix[0]) ==> sdu.reports == FirstTen(Measured(events, ix))
  }

  lemma SpelledMore(events: seq<Event>, k: nat, sdus: seq<Sdu>, how: seq<seq<nat>>, sdu: Sdu, ix: seq<nat>)
    requires k < |events| && Spelled(events, k, sdus, how)
    requires Explains(events, ix, sdu.data) && Last(ix) == k
    ensures Spelled(events, k + 1, sdus + [sdu], how + [ix])
  {
    forall i | 0 <= i < |how| ensures Last(how[i]) < ix[0] {
      DeliveriesAreDisjoint(events, how[i], sdus[i].data, ix, sdu.data);
    }
    hide Explains;
  }

  lemma AmongMore(sdus: seq<Sdu>, how: seq<seq<nat>>, more: seq<Sdu>, moreHow: seq<seq<nat>>, ix: seq<nat>, data: seq<byte>)
    requires |sdus| == |how| && Among(sdus, how, ix, data)
    ensures Among(sdus + more, how + moreHow, ix, data)
  {
    var j :| 0 <= j < |sdus| && Last(how[j]) == Last(ix) && sdus[j].data == data;
    assert (how + moreHow)[j] == how[j] && (sdus + more)[j] == sdus[j];
  }

  lemma AmongLast(sdus: seq<Sdu>, how: seq<seq<nat>>, sdu: Sdu, own: seq<nat>, ix: seq<nat>)
    requires |sdus| == |how| && Last(own) == Last(ix)
    ensures Among(sdus + [sdu], how + [own], ix, sdu.data)
  {
    var j := |sdus|;
    assert (how + [own])[j] == own && (sdus + [sdu])[j] == sdu;
  }

  /** What event `k` hands up in the run, if anything. */
  function Upward(events: seq<Event>, k: nat, reports: seq<Report>): seq<Sdu>
    requires k < |events|
  {
    Step(Run(events, k, reports).state, events[k].sn, events[k].elem, events[k].mac).delivered
  }

  lemma RunUpward(events: seq<Event>, k: nat, reports: seq<Report>)
    requires k < |events|
    ensures Run(events, k + 1, reports).delivered == Run(events, k, reports).delivered + Upward(events, k, reports)
  {
  }

  /** Event `k` hands up exactly what some group of pieces that ends at it spells. */
  lemma UpwardIs(events: seq<Event>, k: nat, reports: seq<Report>) returns (ix: seq<nat>)
    requires k < |events|
    ensures |Upward(events, k, reports)| <= 1
    ensures Upward(events, k, reports) != [] ==>
              Explains(events, ix, Upward(events, k, reports)[0].data) && Last(ix) == k
    ensures forall jx, data :: Explains(events, jx, data) && Last(jx) == k ==>
              Upward(events, k, reports) != [] && Upward(events, k, reports)[0].data == data
  {
    hide Run, Step, Positions, Gather, Opens;
    var up := Upward(events, k, reports);
    DeliversExactly(events, k, reports, []);
    if up != [] {
      DeliversExactly(events, k, reports, up[0].data);
      ix :| Explains(events, ix, up[0].data) && ix[|ix| - 1] == k;
    } else {
      ix := [];
    }
    forall jx, data | Explains(events, jx, data) && Last(jx) == k ensures up != [] && up[0].data == data {
      DeliversExactly(events, k, reports, data);
    }
  }

  lemma UpwardReport(events: seq<Event>, k: nat, ix: seq<nat>)
    requires k < |events| && |Upward(events, k, [])| == 1 && Last(ix) == k
    requires Explains(events, ix, Upward(events, k, [])[0].data)
    ensures OwnReport(events, Upward(events, k, [])[0], ix)
  {
    OwnMeasurements(events, k, ix, Upward(events, k, [])[0].data);
  }

  /**
    The deliveries of any run, all of them: each is what one group of pieces spells, the groups are
    apart and in order, and no group is left out.
   */
  lemma {:induction false} DeliveredAre(events: seq<Event>, k: nat, reports: seq<Report>) returns (how: seq<seq<nat>>)
    requires k <= |events|
    ensures |how| == |Run(events, k, reports).delivered|
    ensures Spelled(events, k, Run(events, k, reports).delivered, how)
    ensures NoneMissing(events, k, Run(events, k, reports).delivered, how)
    ensures reports == [] ==> OwnReports(events, Run(events, k, reports).delivered, how)
  {
    hide *;
    if k == 0 {
      how := [];
      Nowhere(events, reports);
      return;
    }
    var before := DeliveredAre(events, k - 1, reports);
    var sdus, up := Run(events, k - 1, reports).delivered, Upward(events, k - 1, reports);
    RunUpward(events, k - 1, reports);
    var ix := UpwardIs(events, k - 1, reports);
    how := if up == [] then before else before + [ix];
    if up == [] {
      assert sdus + up == sdus;
      SameSdus(events, k, reports, sdus, before);
    } else {
      assert up == [up[0]];
      SpelledMore(events, k - 1, sdus, before, up[0], ix);
      OneMore(events, k, reports, sdus, before, ix);
      if reports == [] { OneMoreReport(events, k, sdus, before, ix); }
    }
  }

  lemma Nowhere(events: seq<Event>, reports: seq<Report>)
    ensures Spelled(events, 0, Run(events, 0, reports).delivered, [])
    ensures NoneMissing(events, 0, Run(events, 0, reports).delivered, [])
    ensures OwnReports(events, Run(events, 0, reports).delivered, [])
  {
  }

  lemma StillSpelled(events: seq<Event>, k: nat, sdus: seq<Sdu>, how: seq<seq<nat>>)
    requires Spelled(events, k, sdus, how)
    ensures Spelled(events, k + 1, sdus, how)
  {
  }

  lemma SameSdus(events: seq<Event>, k: nat, reports: seq<Report>, sdus: seq<Sdu>, how: seq<seq<nat>>)
    requires 0 < k <= |events| && Upward(events, k - 1, reports) == []
    requires Spelled(events, k - 1, sdus, how) && NoneMissing(events, k - 1, sdus, how)
    ensures Spelled(events, k, sdus, how) && NoneMissing(events, k, sdus, how)
  {
    StillSpelled(events, k - 1, sdus, how);
    hide Explains, Upward, Among, Spelled;
    var none := UpwardIs(events, k - 1, reports);
    forall ix, data | Explains(events, ix, data) && Last(ix) < k ensures Among(sdus, how, ix, data) {
      if Last(ix) == k - 1 { assert false; }
    }
  }

  lemma OneMore(events: seq<Event>, k: nat, reports: seq<Report>, sdus: seq<Sdu>, how: seq<seq<nat>>, own: seq<nat>)
    requires 0 < k <= |events| && |sdus| == |how| && Last(own) == k - 1
    requires Upward(events, k - 1, reports) != [] && NoneMissing(events, k - 1, sdus, how)
    ensures NoneMissing(events, k, sdus + [Upward(events, k - 1, reports)[0]], how + [own])
  {
    hide Explains, Upward, Among;
    var sdu := Upward(events, k - 1, reports)[0];
    var last := UpwardIs(events, k - 1, reports);
    forall ix, data | Explains(events, ix, data) && Last(ix) < k ensures Among(sdus + [sdu], how + [own], ix, data) {
      if Last(ix) < k - 1 {
        AmongMore(sdus, how, [sdu], [own], ix, data);
      } else {
        AmongLast(sdus, how, sdu, own, ix);
      }
    }
  }

  lemma OneMoreReport(events: seq<Event>, k: nat, sdus: seq<Sdu>, how: seq<seq<nat>>, own: seq<nat>)
    requires 0 < k <= |events| && |sdus| == |how| && OwnReports(events, sdus, how)
    requires |Upward(events, k - 1, [])| == 1 && Last(own) == k - 1
    requires Explains(events, own, Upward(events, k - 1, [])[0].data)
    ensures OwnReports(events, sdus + Upward(events, k - 1, []), how + [own])
  {
    UpwardReport(events, k - 1, own);
    hide *;
    OwnReportMore(events, sdus, how, Upward(events, k - 1, [])[0], own);
    assert Upward(events, k - 1, []) == [Upward(events, k - 1, [])[0]];
  }

  lemma OwnReportMore(events: seq<Event>, sdus: seq<Sdu>, how: seq<seq<nat>>, sdu: Sdu, ix: seq<nat>)
    requires |sdus| == |how| && OwnReports(events, sdus, how) && OwnReport(events, sdu, ix)
    ensures OwnReports(events, sdus + [sdu], how + [ix])
  {
    hide OwnReport;
  }

  // ----- From octet strings to elements -----

  function Tagged(sn: nat, elems: seq<Elem>, mac: Option<Report>): seq<Event> {
    if elems == [] then [] else [Event(sn, elems[0], mac)] + Tagged(sn, elems[1..], mac)
  }

  /** The elements of one octet string, none if it is no AMD PDU. */
  function EventsIn(b: seq<byte>, mac: Option<Report>): seq<Event> {
    var pdu := DecodePdu(b);
    if pdu.Some? then Tagged(pdu.value.sn, pdu.value.elems, mac) else []
  }

  function EventsOf(air: seq<seq<byte>>, macs: seq<Option<Report>>): seq<Event>
    requires |macs| == |air|
    decreases |air|
  {
    if air == [] then [] else EventsIn(air[0], macs[0]) + EventsOf(air[1..], macs[1..])
  }

  lemma {:induction false} RunPrefix(a: seq<Event>, b: seq<Event>, k: nat, reports: seq<Report>)
    requires k <= |a|
    ensures Run(a + b, k, reports) == Run(a, k, reports)
  {
    if k > 0 {
      RunPrefix(a, b, k - 1, reports);
      assert (a + b)[k - 1] == a[k - 1];
      hide Step;
    }
  }

  /** `r` is what comes of `o` by the further outcome `more`. */
  function Then(o: Outcome, more: Outcome): Outcome {
    Outcome(more.state, o.delivered + more.delivered)
  }

  lemma ThenThen(o: Outcome, a: Outcome, b: Outcome)
    ensures Then(Then(o, a), b) == Then(o, Then(a, b))
  {
    assert (o.delivered + a.delivered) + b.delivered == o.delivered + (a.delivered + b.delivered);
  }

  lemma ThenNothing(o: Outcome)
    ensures Then(o, Outcome(o.state, [])) == o
  {
    assert o.delivered + [] == o.delivered;
  }

  lemma RunMore(before: seq<Event>, e: Event, reports: seq<Report>)
    ensures var o := Run(before, |before|, reports);
            Run(before + [e], |before| + 1, reports) == Then(o, Step(o.state, e.sn, e.elem, e.mac))
  {
    RunPrefix(before, [e], |before|, reports);
    hide Step;
  }

  lemma {:induction false} ReceiveIsRun(before: seq<Event>, sn: nat, elems: seq<Elem>, mac: Option<Report>, reports: seq<Report>)
    ensures var events, o := before + Tagged(sn, elems, mac), Run(before, |before|, reports);
            Run(events, |events|, reports) == Then(o, Receive(o.state, sn, elems, mac))
    decreases |elems|
  {
    hide Step, Run;
    var o := Run(before, |before|, reports);
    if elems == [] {
      assert before + Tagged(sn, elems, mac) == before;
      ThenNothing(o);
    } else {
      var e := Event(sn, elems[0], mac);
      var first := Step(o.state, sn, elems[0], mac);
      assert before + Tagged(sn, elems, mac) == (before + [e]) + Tagged(sn, elems[1..], mac);
      RunMore(before, e, reports);
      ReceiveIsRun(before + [e], sn, elems[1..], mac, reports);
      ThenThen(o, first, Receive(first.state, sn, elems[1..], mac));
    }
  }

  lemma BytesAreRun(before: seq<Event>, b: seq<byte>, mac: Option<Report>, reports: seq<Report>)
    ensures var events, o := before + EventsIn(b, mac), Run(before, |before|, reports);
            Run(events, |events|, reports) == Then(o, ReceiveBytes(o.state, b, mac))
  {
    var o := Run(before, |before|, reports);
    if DecodePdu(b).Some? {
      ReceiveIsRun(before, DecodePdu(b).value.sn, DecodePdu(b).value.elems, mac, reports);
    } else {
      assert before + [] == before;
      ThenNothing(o);
    }
    hide *;
  }

  /** Feeding octet strings to the entity is the run over their elements. */
  lemma {:induction false} ReceiveAllIsRun(before: seq<Event>, air: seq<seq<byte>>, macs: seq<Option<Report>>, reports: seq<Report>)
    requires |macs| == |air|
    ensures var events, o := before + EventsOf(air, macs), Run(before, |before|, reports);
            Run(events, |events|, reports) == Then(o, ReceiveAll(o.state, air, macs))
    decreases |air|
  {
    hide Run, ReceiveBytes, EventsIn;
    var o := Run(before, |before|, reports);
    if air == [] {
      assert before + EventsOf(air, macs) == before;
      ThenNothing(o);
    } else {
      var first := ReceiveBytes(o.state, air[0], macs[0]);
      var now := before + EventsIn(air[0], macs[0]);
      assert before + EventsOf(air, macs) == now + EventsOf(air[1..], macs[1..]);
      BytesAreRun(before, air[0], macs[0], reports);
      ReceiveAllIsRun(now, air[1..], macs[1..], reports);
      ThenThen(o, first, ReceiveAll(first.state, air[1..], macs[1..]));
    }
  }

  /**
    Whatever octet strings arrive at an entity that holds nothing (PDUs lost, repeated, reordered,
    damaged, or no PDUs at all), the SDUs it hands up are exactly what the groups of pieces in them
    spell: one FULL each, or START MID* END with successive numbers and nothing disturbing between.
    They come in the order of their pieces, and no piece serves two.  An SDU whose first piece starts
    clean goes up with its own measurements.
   */
  lemma AirDeliversExactly(air: seq<seq<byte>>, macs: seq<Option<Report>>) returns (how: seq<seq<nat>>)
    requires |macs| == |air|
    ensures var events, sdus := EventsOf(air, macs), ReceiveAll(State(Nothing, []), air, macs).delivered;
            && Spelled(events, |events|, sdus, how)
            && NoneMissing(events, |events|, sdus, how)
            && OwnReports(events, sdus, how)
  {
    hide *;
    var events, o := EventsOf(air, macs), ReceiveAll(State(Nothing, []), air, macs);
    FromNothing(air, macs);
    how := DeliveredAre(events, |events|, []);
  }

  lemma FromNothing(air: seq<seq<byte>>, macs: seq<Option<Report>>)
    requires |macs| == |air|
    ensures var events := EventsOf(air, macs);
            Run(events, |events|, []) == ReceiveAll(State(Nothing, []), air, macs)
  {
    ReceiveAllIsRun([], air, macs, []);
    hide ReceiveAll, EventsOf;
    assert [] + EventsOf(air, macs) == EventsOf(air, macs);
    var o := ReceiveAll(State(Nothing, []), air, macs);
    assert [] + o.delivered == o.delivered;
  }
}
