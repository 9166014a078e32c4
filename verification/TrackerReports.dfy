/**
  What the tracker reports and when (dpe/src/UeLoginInfoReceiver.cpp:145-280), in numbers: powers that go
  down by 5 with every miss, -1 for a lost target, and every 200th check the last power again.
 */
module TrackerReports {
  import opened TargetTracker

  /** Times and powers for which 32 bits suffice. */
  predicate Ordinary(cfg: Config, s: State, now: nat) {
    && cfg.interval < 0x1000_0000 && cfg.margin < 0x1000_0000 && s.target != []
    && -0x8000_0000 <= now - Last(s.target).timestamp < 0x8000_0000
    && -0x4000_0000 <= Last(s.target).prbPower < 0x4000_0000
  }

  /**
    After one more miss: two misses are forgiven, or half as many as the target has accesses; then it is
    reported lost and everything is forgotten.
   */
  function Missed(s: State): State
    requires s.target != []
  {
    var misses := s.missCount + 1;
    if misses > 2 || 2 * misses > |s.target| then
      s.(missCount := 0, target := [], candidates := [], sent := s.sent + [Report(-1, s.remoteIp)])
    else
      s.(missCount := misses, sent := s.sent + [Report(Last(s.target).prbPower - 5 * misses, s.remoteIp)])
  }

  /** A clock check: a miss when the next access is overdue, and otherwise every 200th time a report. */
  lemma CheckIs(cfg: Config, s: State, now: nat, jitter: int)
    requires Valid(cfg, s) && Ordinary(cfg, s, now) && -100 <= jitter <= 100 && s.reportCount + 1 < UINT32
    ensures var k, last, counted := s.missCount, Last(s.target), s.(reportCount := s.reportCount + 1);
            Checked(cfg, s, now, jitter) ==
              if now - last.timestamp > (k + 1) * cfg.interval + cfg.margin + k * (cfg.margin / 2) then Missed(counted)
              else if counted.reportCount % 200 == 0 then
                counted.(sent := s.sent + [Report(last.prbPower + jitter, s.remoteIp)])
              else counted
  {
    hide Checked, Missed, TimeDiff, Overdue, Valid;
    CheckTimes(cfg, s, now);
    CheckPowers(cfg, s, jitter);
    CheckBy(cfg, s, now, jitter, (s.missCount + 1) * cfg.interval + cfg.margin + s.missCount * (cfg.margin / 2));
  }

  lemma CheckBy(cfg: Config, s: State, now: nat, jitter: int, limit: int)
    requires s.target != [] && s.reportCount + 1 < UINT32 && Overdue(cfg, s.missCount) == limit
    requires var p := Last(s.target).prbPower;
             Int32(p + jitter) == p + jitter && Int32(p - 5 * (s.missCount + 1)) == p - 5 * (s.missCount + 1)
    ensures var last, counted := Last(s.target), s.(reportCount := s.reportCount + 1);
            Checked(cfg, s, now, jitter) ==
              if TimeDiff(now, last.timestamp) > limit then Missed(counted)
              else if counted.reportCount % 200 == 0 then
                counted.(sent := s.sent + [Report(last.prbPower + jitter, s.remoteIp)])
              else counted
  {
    hide Int32, TimeDiff, Overdue, MissedTooOften;
    TooMany(s.missCount + 1, |s.target|);
    SmallRemainder(s.reportCount + 1);
  }

  lemma SmallRemainder(x: nat)
    requires x < UINT32
    ensures x % UINT32 == x
  {
  }

  lemma TooMany(misses: nat, size: nat)
    ensures MissedTooOften(misses, size) <==> misses > 2 || 2 * misses > size
  {
  }

  lemma Narrow(x: int)
    requires -0x8000_0000 <= x < 0x8000_0000
    ensures Int32(x) == x
  {
  }

  lemma FewMisses(cfg: Config, s: State)
    requires Valid(cfg, s)
    ensures s.missCount <= 2
  {
  }

  lemma CheckTimes(cfg: Config, s: State, now: nat)
    requires Valid(cfg, s) && Ordinary(cfg, s, now)
    ensures TimeDiff(now, Last(s.target).timestamp) == now - Last(s.target).timestamp
    ensures Overdue(cfg, s.missCount) == (s.missCount + 1) * cfg.interval + cfg.margin + s.missCount * (cfg.margin / 2)
  {
    hide Int32, Valid;
    FewMisses(cfg, s);
    Narrow(now - Last(s.target).timestamp);
    Late(cfg.interval, cfg.margin, cfg.margin / 2, s.missCount);
  }

  lemma CheckPowers(cfg: Config, s: State, jitter: int)
    requires Valid(cfg, s) && s.target != [] && -0x4000_0000 <= Last(s.target).prbPower < 0x4000_0000
    requires -100 <= jitter <= 100
    ensures Int32(Last(s.target).prbPower + jitter) == Last(s.target).prbPower + jitter
    ensures Int32(Last(s.target).prbPower - 5 * (s.missCount + 1)) == Last(s.target).prbPower - 5 * (s.missCount + 1)
  {
    hide Int32, Valid;
    FewMisses(cfg, s);
    Narrow(Last(s.target).prbPower + jitter);
    Narrow(Last(s.target).prbPower - 5 * (s.missCount + 1));
  }

  lemma Times(k: nat, x: int)
    requires k <= 2
    ensures k * x == (if k == 0 then 0 else if k == 1 then x else x + x) && (k + 1) * x == k * x + x
  {
  }

  lemma Late(interval: nat, margin: nat, part: nat, k: nat)
    requires interval < 0x1000_0000 && part <= margin < 0x1000_0000 && k <= 2
    ensures Int32(Int32(interval + margin) + k * (interval + part)) == (k + 1) * interval + margin + k * part
    ensures Int32(Int32(interval - margin) + k * (interval - part)) == (k + 1) * interval - margin - k * part
  {
    hide Int32;
    Times(k, interval + part);
    Times(k, interval - part);
    Times(k, interval);
    Times(k, part);
    Narrow(interval + margin);
    Narrow(interval - margin);
    Narrow(interval + margin + k * (interval + part));
    Narrow(interval - margin + k * (interval - part));
  }

  /**
    An access: in the window around its expected time it continues the target and is reported, before the
    window or without power it is passed over, and after the window it is a miss.
   */
  lemma TrackIs(cfg: Config, s: State, info: Info, ip: string)
    requires Valid(cfg, s) && Ordinary(cfg, s, info.timestamp)
    ensures var k, last := s.missCount, Last(s.target);
            var diff, slack := info.timestamp - last.timestamp, cfg.margin + k * (cfg.margin / 4);
            var expected := (k + 1) * cfg.interval;
            Track(cfg, s, info, ip) ==
              if diff > expected + slack then
                Tracked(Missed(s), if Missed(s).target == [] then Search else Next, diff)
              else if diff < expected - slack || info.prbPower == 0 then Tracked(s, Next, diff)
              else
                Tracked(s.(missCount := 0, remoteIp := ip, target := s.target + [info.(timestamp := last.timestamp + expected)],
                           sent := s.sent + [Report(info.prbPower, ip)]), Stop, diff)
  {
    hide Track, Missed, TimeDiff, Valid, Latest, Earliest, Overdue, Int32;
    FewMisses(cfg, s);
    CheckTimes(cfg, s, info.timestamp);
    CheckPowers(cfg, s, 0);
    Window(cfg, s.missCount);
    var expected, slack := (s.missCount + 1) * cfg.interval, cfg.margin + s.missCount * (cfg.margin / 4);
    NoWrap(cfg, s.missCount + 1);
    TrackBy(cfg, s, info, ip, expected, expected - slack, expected + slack);
  }

  lemma TrackBy(cfg: Config, s: State, info: Info, ip: string, expected: nat, first: int, last: int)
    requires s.target != []
    requires Int32(Latest(cfg) + s.missCount * (cfg.interval + cfg.margin / 4)) == last
    requires Int32(Earliest(cfg) + s.missCount * (cfg.interval - cfg.margin / 4)) == first
    requires (s.missCount + 1) * cfg.interval % UINT32 == expected
    requires var p := Last(s.target).prbPower; Int32(p - 5 * (s.missCount + 1)) == p - 5 * (s.missCount + 1)
    ensures var diff, then_ := TimeDiff(info.timestamp, Last(s.target).timestamp), Last(s.target).timestamp;
            Track(cfg, s, info, ip) ==
              if first <= diff <= last then
                if info.prbPower == 0 then Tracked(s, Next, diff)
                else Tracked(s.(missCount := 0, remoteIp := ip, target := s.target + [info.(timestamp := then_ + expected)],
                                sent := s.sent + [Report(info.prbPower, ip)]), Stop, diff)
              else if diff < first then Tracked(s, Next, diff)
              else Tracked(Missed(s), if Missed(s).target == [] then Search else Next, diff)
  {
    hide Int32, TimeDiff, MissedTooOften, Latest, Earliest;
    TooMany(s.missCount + 1, |s.target|);
  }

  lemma Window(cfg: Config, k: nat)
    requires cfg.interval < 0x1000_0000 && cfg.margin < 0x1000_0000 && k <= 2
    ensures var expected, slack := (k + 1) * cfg.interval, cfg.margin + k * (cfg.margin / 4);
            && Int32(Latest(cfg) + k * (cfg.interval + cfg.margin / 4)) == expected + slack
            && Int32(Earliest(cfg) + k * (cfg.interval - cfg.margin / 4)) == expected - slack
  {
    hide Int32;
    Late(cfg.interval, cfg.margin, cfg.margin / 4, k);
  }

  lemma NoWrap(cfg: Config, n: nat)
    requires cfg.interval < 0x1000_0000 && n <= 3
    ensures n * cfg.interval % UINT32 == n * cfg.interval
  {
    Steps(cfg, n);
  }

  /**
    A target that falls silent is reported with 5 and 10 less power and then as lost; one of three accesses
    is lost at the second miss.
   */
  lemma FallsSilent(cfg: Config, s: State, t1: nat, t2: nat, t3: nat)
    requires Valid(cfg, s) && s.missCount == 0 && s.reportCount + 3 < UINT32
    requires Ordinary(cfg, s, t1) && Ordinary(cfg, s, t2) && Ordinary(cfg, s, t3)
    requires t1 > Last(s.target).timestamp + cfg.interval + cfg.margin
    requires t2 > Last(s.target).timestamp + 2 * cfg.interval + cfg.margin + cfg.margin / 2
    requires t3 > Last(s.target).timestamp + 3 * cfg.interval + cfg.margin + 2 * (cfg.margin / 2)
    ensures var p, ip := Last(s.target).prbPower, s.remoteIp;
            var end := Checked(cfg, Checked(cfg, Checked(cfg, s, t1, 0), t2, 0), t3, 0);
            && end.target == [] && end.candidates == [] && end.missCount == 0
            && end.sent == s.sent + if |s.target| == 3 then [Report(p - 5, ip), Report(-1, ip)]
                                    else [Report(p - 5, ip), Report(p - 10, ip), Report(-1, ip)]
  {
    assert s.target != [];
    hide Checked, Valid, Ordinary, Missed;
    var s1 := Checked(cfg, s, t1, 0);
    LateCheck(cfg, s, t1);
    FirstMiss(s.(reportCount := s.reportCount + 1));
    assert Ordinary(cfg, s1, t2) && Ordinary(cfg, s1, t3) by { SameTarget(cfg, s, s1, t2); SameTarget(cfg, s, s1, t3); }
    LateCheck(cfg, s1, t2);
    var s2 := Checked(cfg, s1, t2, 0);
    NextMiss(s1.(reportCount := s1.reportCount + 1));
    if |s.target| == 3 {
      NothingToCheck(cfg, s2, t3);
    } else {
      SameTarget(cfg, s1, s2, t3);
      LateCheck(cfg, s2, t3);
      NextMiss(s2.(reportCount := s2.reportCount + 1));
    }
  }

  lemma SameTarget(cfg: Config, s: State, t: State, now: nat)
    requires Ordinary(cfg, s, now) && t.target == s.target
    ensures Ordinary(cfg, t, now)
  {
  }

  lemma LateCheck(cfg: Config, s: State, now: nat)
    requires Valid(cfg, s) && Ordinary(cfg, s, now) && s.reportCount + 1 < UINT32 && s.target != []
    requires s.missCount <= 2 && now > Last(s.target).timestamp + (
               if s.missCount == 0 then cfg.interval + cfg.margin
               else if s.missCount == 1 then 2 * cfg.interval + cfg.margin + cfg.margin / 2
               else 3 * cfg.interval + cfg.margin + 2 * (cfg.margin / 2))
    ensures Checked(cfg, s, now, 0) == Missed(s.(reportCount := s.reportCount + 1)) && Valid(cfg, Checked(cfg, s, now, 0))
    ensures |s.target| >= 3
  {
    AtLeastThree(cfg, s);
    hide Checked, Missed, Valid, Ordinary;
    Times(s.missCount, cfg.interval);
    Times(s.missCount, cfg.margin / 2);
    CheckIs(cfg, s, now, 0);
    CheckedValid(cfg, s, now, 0);
  }

  lemma AtLeastThree(cfg: Config, s: State)
    requires Valid(cfg, s) && s.target != []
    ensures |s.target| >= 3
  {
  }

  lemma FirstMiss(s: State)
    requires |s.target| >= 3 && s.missCount == 0
    ensures Missed(s) == s.(missCount := 1, sent := s.sent + [Report(Last(s.target).prbPower - 5, s.remoteIp)])
  {
  }

  lemma NextMiss(s: State)
    requires |s.target| >= 3 && 1 <= s.missCount <= 2
    ensures Missed(s) == if s.missCount == 2 || |s.target| == 3 then
                           s.(missCount := 0, target := [], candidates := [], sent := s.sent + [Report(-1, s.remoteIp)])
                         else
                           s.(missCount := 2, sent := s.sent + [Report(Last(s.target).prbPower - 10, s.remoteIp)])
  {
  }

  lemma NothingToCheck(cfg: Config, s: State, now: nat)
    requires s.target == []
    ensures Checked(cfg, s, now, 0) == s
  {
  }

  // ----- Candidates -----

  /** `b` comes one interval after `a`, give or take the margin, with similar timing advance and power. */
  predicate Follows(cfg: Config, a: Info, b: Info) {
    && cfg.interval - cfg.margin <= b.timestamp - a.timestamp <= cfg.interval + cfg.margin
    && -1 <= b.ta - a.ta <= 1 && -20 <= b.prbPower - a.prbPower <= 20
  }

  /** For these the 16 and 32 bits suffice. */
  predicate OrdinaryPair(cfg: Config, a: Info, b: Info) {
    && cfg.interval < 0x1000_0000 && cfg.margin < 0x1000_0000 && -0x8000_0000 <= b.timestamp - a.timestamp < 0x8000_0000
    && -0x8000 <= b.ta - a.ta < 0x8000 && -0x8000_0000 <= b.prbPower - a.prbPower < 0x8000_0000
  }

  /** Candidates that have accesses, ids below the next one, and ordinary numbers. */
  predicate OrdinaryCandidates(cfg: Config, s: State, info: Info) {
    && cfg.interval < 0x1000_0000 && cfg.margin < 0x1000_0000 && s.currentTargetId + 1 < UINT32 && NoneEmpty(s.candidates)
    && forall i :: 0 <= i < |s.candidates| ==>
         OrdinaryPair(cfg, Last(s.candidates[i].accesses), info) && s.candidates[i].id <= s.currentTargetId
  }

  lemma ContinuesIs(cfg: Config, c: Candidate, info: Info)
    requires c.accesses != [] && OrdinaryPair(cfg, Last(c.accesses), info)
    ensures Continues(cfg, c, info) <==> Follows(cfg, Last(c.accesses), info)
    ensures TimeDiff(info.timestamp, Last(c.accesses).timestamp) == info.timestamp - Last(c.accesses).timestamp
  {
    hide Int32, Int16;
    var last := Last(c.accesses);
    Narrow(cfg.interval + cfg.margin);
    Narrow(cfg.interval - cfg.margin);
    Narrow(info.timestamp - last.timestamp);
    Narrow(info.prbPower - last.prbPower);
    Narrow16(info.ta - last.ta);
  }

  lemma Narrow16(x: int)
    requires -0x8000 <= x < 0x8000
    ensures Int16(x) == x
  {
  }

  lemma {:induction false} FirstFollowed(cfg: Config, cs: seq<Candidate>, info: Info, i: nat, k: nat)
    requires NoneEmpty(cs) && i <= k <= |cs|
    requires forall j :: i <= j < |cs| ==> OrdinaryPair(cfg, Last(cs[j].accesses), info)
    requires forall j :: i <= j < k ==> !Follows(cfg, Last(cs[j].accesses), info)
    requires k < |cs| ==> Follows(cfg, Last(cs[k].accesses), info)
    ensures FirstMatch(cfg, cs, info, i) == k
    decreases k - i
  {
    hide Follows, Continues, OrdinaryPair;
    if i < |cs| { ContinuesIs(cfg, cs[i], info); }
    if i < k { FirstFollowed(cfg, cs, info, i + 1, k); }
  }

  lemma {:induction false} InsertedLast(cs: seq<Candidate>, c: Candidate)
    requires forall i :: 0 <= i < |cs| ==> cs[i].id < c.id
    ensures Insert(cs, c) == cs + [c]
    decreases |cs|
  {
    if cs != [] {
      InsertedLast(cs[1..], c);
      assert [cs[0]] + (cs[1..] + [c]) == cs + [c];
    }
  }

  /**
    An access without a target, when `k` is the first candidate it follows: as a third access it makes a
    target; else it is added to the candidate and becomes the newest candidate itself, and if it follows
    none and comes too late for the newest, that one alone is kept.
   */
  lemma SearchIs(cfg: Config, s: State, info: Info, ip: string, k: nat)
    requires OrdinaryCandidates(cfg, s, info) && k <= |s.candidates|
    requires forall j :: 0 <= j < k ==> !Follows(cfg, Last(s.candidates[j].accesses), info)
    requires k < |s.candidates| ==> Follows(cfg, Last(s.candidates[k].accesses), info)
    ensures var cs, id := s.candidates, s.currentTargetId + 1;
            var f := SearchCandidates(cfg, s, info, ip, 0);
            if k == |cs| then
              var late := cs != [] && info.timestamp - Last(cs[k - 1].accesses).timestamp > cfg.interval + cfg.margin;
              !f.found && f.state == s.(currentTargetId := id, candidates := (if late then [] else cs) + [Candidate(id, [info])])
            else
              var hit := info.(timestamp := Last(cs[k].accesses).timestamp + cfg.interval);
              var more := cs[k].accesses + [hit];
              if |more| == 3 then
                f.found && f.state == s.(missCount := 0, remoteIp := ip, target := more, candidates := [],
                                         sent := s.sent + [Report(info.prbPower, ip)])
              else
                !f.found && f.state == s.(currentTargetId := id,
                                          candidates := cs[k := cs[k].(accesses := more)] + [Candidate(id, [hit])])
  {
    hide Follows, Continues, FirstMatch, OrdinaryPair, Insert, TimeDiff, Int32;
    var cs, id := s.candidates, s.currentTargetId + 1;
    FirstFollowed(cfg, cs, info, 0, k);
    Narrow(cfg.interval + cfg.margin);
    var last := if k < |cs| then k else |cs| - 1;
    if cs != [] { ContinuesIs(cfg, cs[last], info); }
    if k == |cs| {
      InsertedLast(cs, Candidate(id, [info]));
      InsertedLast([], Candidate(id, [info]));
    } else {
      FollowsInTime(cfg, Last(cs[k].accesses), info);
      var hit := info.(timestamp := Last(cs[k].accesses).timestamp + cfg.interval);
      InsertedLast(cs[k := cs[k].(accesses := cs[k].accesses + [hit])], Candidate(id, [hit]));
    }
  }

  lemma FollowsInTime(cfg: Config, a: Info, b: Info)
    requires Follows(cfg, a, b)
    ensures b.timestamp - a.timestamp <= cfg.interval + cfg.margin
  {
  }

  // ----- The period of the reports -----

  datatype Tick = Tick(now: nat, jitter: int)

  function Ticks(cfg: Config, s: State, ticks: seq<Tick>): State
    decreases |ticks|
  {
    if ticks == [] then s
    else
      var last := ticks[|ticks| - 1];
      Checked(cfg, Ticks(cfg, s, ticks[..|ticks| - 1]), last.now, last.jitter)
  }

  /** The check that makes the `j`-th report when `count` checks came before. */
  function ReportingTick(count: nat, j: nat): (i: nat)
    ensures (count + i + 1) % 200 == 0 && 200 * j <= i < 200 * j + 200
  {
    200 * (count / 200 + j + 1) - count - 1
  }

  predicate InTime(cfg: Config, s: State, tick: Tick)
    requires s.target != []
  {
    && Ordinary(cfg, s, tick.now) && -100 <= tick.jitter <= 100
    && tick.now - Last(s.target).timestamp <= (s.missCount + 1) * cfg.interval + cfg.margin + s.missCount * (cfg.margin / 2)
  }

  /** While nothing is overdue, every 200th check reports the last power, and nothing else happens. */
  lemma {:induction false} ReportsEvery200(cfg: Config, s: State, ticks: seq<Tick>)
    requires Valid(cfg, s) && s.target != [] && s.reportCount + |ticks| < UINT32
    requires forall i :: 0 <= i < |ticks| ==> InTime(cfg, s, ticks[i])
    ensures var r, c := Ticks(cfg, s, ticks), s.reportCount;
            && r == s.(reportCount := c + |ticks|, sent := r.sent) && s.sent <= r.sent
            && |r.sent| - |s.sent| == (c + |ticks|) / 200 - c / 200
            && forall j :: 0 <= j < |r.sent| - |s.sent| ==>
                 ReportingTick(c, j) < |ticks|
                 && r.sent[|s.sent|..][j] == Report(Last(s.target).prbPower + ticks[ReportingTick(c, j)].jitter, s.remoteIp)
    decreases |ticks|
  {
    hide Checked, Valid, InTime;
    if ticks != [] {
      var n := |ticks| - 1;
      ReportsEvery200(cfg, s, ticks[..n]);
      var before, t := Ticks(cfg, s, ticks[..n]), ticks[n];
      NextTick(cfg, s, before, t);
    }
  }

  lemma NextTick(cfg: Config, s: State, before: State, t: Tick)
    requires Valid(cfg, s) && s.target != [] && InTime(cfg, s, t) && before.reportCount + 1 < UINT32
    requires before == s.(reportCount := before.reportCount, sent := before.sent)
    ensures var count := before.reportCount + 1;
            Checked(cfg, before, t.now, t.jitter) == before.(reportCount := count,
              sent := before.sent + if count % 200 == 0 then [Report(Last(s.target).prbPower + t.jitter, s.remoteIp)] else [])
  {
    hide Checked;
    assert Valid(cfg, before);
    CheckIs(cfg, before, t.now, t.jitter);
  }
}
