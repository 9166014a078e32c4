/**
  The tracker of periodic accesses (dpe/src/UeLoginInfoReceiver.cpp:145-328): accesses that come at
  the expected interval with similar power and timing advance are collected as candidates, three in a
  row are a target, and a target is kept while it does not miss too often.  Clock values, the random
  jitter of a report and the address of the sender are parameters; reports go to `sent`.
 */
module TargetTracker {

  const UINT32: nat := 0x1_0000_0000
  const LOST: int := -1

  function Int32(x: int): int {
    (x + 0x8000_0000) % 0x1_0000_0000 - 0x8000_0000
  }

  function Int16(x: int): int {
    (x + 0x8000) % 0x1_0000 - 0x8000
  }

  datatype Info = Info(timestamp: nat, prbPower: int, rnti: nat, ta: int)

  datatype Report = Report(prbPower: int, remoteIp: string)

  /** Accesses that may become a target; the list of candidates is kept in the order of the ids. */
  datatype Candidate = Candidate(id: nat, accesses: seq<Info>)

  datatype Config = Config(interval: nat, margin: nat)

  /** Three intervals fit the 32 bits they are computed in. */
  predicate ConfigOk(cfg: Config) {
    3 * cfg.interval < UINT32
  }

  function Latest(cfg: Config): int {
    Int32(cfg.interval + cfg.margin)
  }

  function Earliest(cfg: Config): int {
    Int32(cfg.interval - cfg.margin)
  }

  datatype State = State(target: seq<Info>, candidates: seq<Candidate>, missCount: nat, currentTargetId: nat,
                         reportCount: nat, remoteIp: string, sent: seq<Report>)

  function Last(s: seq<Info>): Info
    requires s != []
  {
    s[|s| - 1]
  }

  function TimeDiff(now: nat, then_: nat): int {
    Int32(now - then_)
  }

  // ----- What always holds -----

  /** The second access came with similar timing advance and power. */
  predicate Similar(a: Info, b: Info) {
    -1 <= Int16(b.ta - a.ta) <= 1 && -20 <= Int32(b.prbPower - a.prbPower) <= 20
  }

  predicate Spaced(cfg: Config, a: Info, b: Info, most: nat) {
    exists n :: 1 <= n <= most && b.timestamp == a.timestamp + n * cfg.interval
  }

  predicate CandidateOk(cfg: Config, c: Candidate) {
    && 1 <= |c.accesses| <= 2
    && (|c.accesses| == 2 ==> Similar(c.accesses[0], c.accesses[1]) && Spaced(cfg, c.accesses[0], c.accesses[1], 1))
  }

  /** Candidates have ids of their own, in ascending order. */
  predicate Ordered(cs: seq<Candidate>) {
    forall i, j :: 0 <= i < j < |cs| ==> cs[i].id < cs[j].id
  }

  /**
    A target has at least three accesses; the first three are similar and one interval apart, later
    ones one, two or three intervals.
   */
  predicate TargetOk(cfg: Config, target: seq<Info>) {
    target == [] || (
      && |target| >= 3
      && Similar(target[0], target[1]) && Similar(target[1], target[2])
      && Spaced(cfg, target[0], target[1], 1) && Spaced(cfg, target[1], target[2], 1)
      && forall i :: 0 <= i < |target| - 1 ==> Spaced(cfg, target[i], target[i + 1], 3))
  }

  predicate Valid(cfg: Config, s: State) {
    && TargetOk(cfg, s.target)
    && (forall i :: 0 <= i < |s.candidates| ==> CandidateOk(cfg, s.candidates[i])) && Ordered(s.candidates)
    && (s.target != [] ==> s.candidates == [])
    && s.missCount <= 2 && s.missCount <= |s.target| / 2
  }

  // ----- One access -----

  /** reportTargetUe */
  function Send(s: State, prbPower: int): State {
    s.(sent := s.sent + [Report(prbPower, s.remoteIp)])
  }

  function Forget(s: State): State {
    s.(missCount := 0, target := [], candidates := [])
  }

  predicate MissedTooOften(missCount: nat, size: nat) {
    missCount > size / 2 || missCount > 2
  }

  datatype Verdict = Stop | Next | Search

  datatype Tracked = Tracked(state: State, verdict: Verdict, timeDiff: int)

  /** The part of the loop that deals with a target; Search goes on to the candidates. */
  function Track(cfg: Config, s: State, info: Info, ip: string): Tracked
    requires s.target != []
  {
    var last := Last(s.target);
    var latest := Int32(Latest(cfg) + s.missCount * (cfg.interval + cfg.margin / 4));
    var earliest := Int32(Earliest(cfg) + s.missCount * (cfg.interval - cfg.margin / 4));
    var timeDiff := TimeDiff(info.timestamp, last.timestamp);
    if earliest <= timeDiff <= latest then
      if info.prbPower != 0 then
        var hit := info.(timestamp := last.timestamp + (s.missCount + 1) * cfg.interval % UINT32);
        Tracked(Send(s.(missCount := 0, remoteIp := ip, target := s.target + [hit]), info.prbPower), Stop, timeDiff)
      else Tracked(s, Next, timeDiff)
    else if timeDiff < earliest then Tracked(s, Next, timeDiff)
    else
      var missed := s.(missCount := s.missCount + 1);
      if MissedTooOften(missed.missCount, |s.target|) then Tracked(Send(Forget(missed), LOST), Search, timeDiff)
      else Tracked(Send(missed, Int32(last.prbPower - 5 * missed.missCount)), Next, timeDiff)
  }

  /** Does the access continue the candidate? */
  predicate Continues(cfg: Config, c: Candidate, info: Info)
    requires c.accesses != []
  {
    var last := Last(c.accesses);
    Earliest(cfg) <= TimeDiff(info.timestamp, last.timestamp) <= Latest(cfg) && Similar(last, info)
  }

  predicate NoneEmpty(cs: seq<Candidate>) {
    forall i :: 0 <= i < |cs| ==> cs[i].accesses != []
  }

  /** The first candidate the access continues, from `i` on; the number of candidates if there is none. */
  function FirstMatch(cfg: Config, cs: seq<Candidate>, info: Info, i: nat): (k: nat)
    requires NoneEmpty(cs) && i <= |cs|
    ensures i <= k <= |cs|
    ensures k < |cs| ==> Continues(cfg, cs[k], info)
    decreases |cs| - i
  {
    if i == |cs| || Continues(cfg, cs[i], info) then i else FirstMatch(cfg, cs, info, i + 1)
  }

  /** The difference to the last candidate looked at; `before` when there is none. */
  function LastDiff(cfg: Config, cs: seq<Candidate>, info: Info, before: int): int
    requires NoneEmpty(cs)
  {
    var k := FirstMatch(cfg, cs, info, 0);
    if cs == [] then before
    else TimeDiff(info.timestamp, Last(cs[if k < |cs| then k else |cs| - 1].accesses).timestamp)
  }

  /** std::map::insert: an id that is taken stays as it is. */
  function Insert(cs: seq<Candidate>, c: Candidate): (r: seq<Candidate>)
    ensures forall d :: d in r ==> d in cs || d == c
    ensures forall d :: d in cs ==> d in r
    decreases |cs|
  {
    if cs == [] || c.id < cs[0].id then [c] + cs
    else if c.id == cs[0].id then cs
    else [cs[0]] + Insert(cs[1..], c)
  }

  datatype Found = Found(state: State, found: bool, timeDiff: int)

  /** The part of the loop that deals with the candidates. */
  function SearchCandidates(cfg: Config, s: State, info: Info, ip: string, timeDiff: int): Found
    requires NoneEmpty(s.candidates)
  {
    var k := FirstMatch(cfg, s.candidates, info, 0);
    var diff := LastDiff(cfg, s.candidates, info, timeDiff);
    var hit := if k < |s.candidates| then info.(timestamp := Last(s.candidates[k].accesses).timestamp + cfg.interval) else info;
    var more := if k < |s.candidates| then s.candidates[k].accesses + [hit] else [];
    if |more| == 3 then
      Found(Send(s.(missCount := 0, remoteIp := ip, target := more, candidates := []), info.prbPower), true, diff)
    else
      var id := (s.currentTargetId + 1) % UINT32;
      var extended := if k < |s.candidates| then s.candidates[k := s.candidates[k].(accesses := more)] else s.candidates;
      var kept := if diff > Latest(cfg) then [] else extended;
      Found(s.(currentTargetId := id, candidates := Insert(kept, Candidate(id, [hit]))), false, diff)
  }

  /** The accesses of one message, up to the one that hits or finds a target. */
  function ProcessAll(cfg: Config, s: State, infos: seq<Info>, ip: string, timeDiff: int): State
    requires Valid(cfg, s) && ConfigOk(cfg)
    decreases |infos|
  {
    if infos == [] then s
    else
      var t := if s.target != [] then Track(cfg, s, infos[0], ip) else Tracked(s, Search, timeDiff);
      TrackValid(cfg, s, infos[0], ip, timeDiff);
      match t.verdict
      case Stop => t.state
      case Next => ProcessAll(cfg, t.state, infos[1..], ip, t.timeDiff)
      case Search =>
        SearchValid(cfg, t.state, infos[0], ip, t.timeDiff);
        var f := SearchCandidates(cfg, t.state, infos[0], ip, t.timeDiff);
        if f.found then f.state else ProcessAll(cfg, f.state, infos[1..], ip, f.timeDiff)
  }

  // ----- The invariant is kept -----

  lemma SpacedBy(cfg: Config, a: Info, b: Info, n: nat, most: nat)
    requires 1 <= n <= most && b.timestamp == a.timestamp + n * cfg.interval
    ensures Spaced(cfg, a, b, most)
  {
  }

  lemma Steps(cfg: Config, n: nat)
    requires ConfigOk(cfg) && n <= 3
    ensures n * cfg.interval % UINT32 == n * cfg.interval
  {
    assert n * cfg.interval == if n == 0 then 0 else if n == 1 then cfg.interval
                               else if n == 2 then cfg.interval + cfg.interval else cfg.interval + cfg.interval + cfg.interval;
  }

  lemma TargetGrows(cfg: Config, target: seq<Info>, hit: Info, n: nat)
    requires target != [] && TargetOk(cfg, target) && 1 <= n <= 3
    requires hit.timestamp == Last(target).timestamp + n * cfg.interval
    ensures TargetOk(cfg, target + [hit])
  {
    var more := target + [hit];
    SpacedBy(cfg, Last(target), hit, n, 3);
    forall i | 0 <= i < |more| - 1
      ensures Spaced(cfg, more[i], more[i + 1], 3)
    {
      if i < |target| - 1 {
        assert more[i] == target[i] && more[i + 1] == target[i + 1];
      }
    }
  }

  lemma TrackValid(cfg: Config, s: State, info: Info, ip: string, timeDiff: int)
    requires Valid(cfg, s) && ConfigOk(cfg)
    ensures var t := if s.target != [] then Track(cfg, s, info, ip) else Tracked(s, Search, timeDiff);
            Valid(cfg, t.state) && (t.verdict == Search ==> t.state.target == [])
  {
    if s.target != [] {
      var t := Track(cfg, s, info, ip);
      if t.verdict == Stop {
        Steps(cfg, s.missCount + 1);
        TargetGrows(cfg, s.target, Last(t.state.target), s.missCount + 1);
        assert t.state.target == s.target + [Last(t.state.target)];
      }
    }
  }

  lemma {:induction false} InsertOrdered(cs: seq<Candidate>, c: Candidate)
    requires Ordered(cs)
    ensures Ordered(Insert(cs, c))
    decreases |cs|
  {
    if cs != [] && c.id > cs[0].id {
      InsertOrdered(cs[1..], c);
      var rest := Insert(cs[1..], c);
      forall j | 0 <= j < |rest|
        ensures cs[0].id < rest[j].id
      {
        assert rest[j] in cs[1..] || rest[j] == c;
      }
    }
  }

  lemma InsertValid(cfg: Config, cs: seq<Candidate>, c: Candidate)
    requires CandidateOk(cfg, c) && forall i :: 0 <= i < |cs| ==> CandidateOk(cfg, cs[i])
    ensures forall i :: 0 <= i < |Insert(cs, c)| ==> CandidateOk(cfg, Insert(cs, c)[i])
  {
    forall i | 0 <= i < |Insert(cs, c)|
      ensures CandidateOk(cfg, Insert(cs, c)[i])
    {
      assert Insert(cs, c)[i] in cs || Insert(cs, c)[i] == c;
    }
  }

  lemma CandidateGrows(cfg: Config, c: Candidate, info: Info, hit: Info)
    requires CandidateOk(cfg, c) && Continues(cfg, c, info)
    requires hit == info.(timestamp := Last(c.accesses).timestamp + cfg.interval)
    ensures |c.accesses| == 1 ==> CandidateOk(cfg, c.(accesses := c.accesses + [hit]))
    ensures |c.accesses| == 2 ==> TargetOk(cfg, c.accesses + [hit])
  {
    var more := c.accesses + [hit];
    assert Similar(Last(c.accesses), hit);
    SpacedBy(cfg, Last(c.accesses), hit, 1, 1);
    SpacedBy(cfg, Last(c.accesses), hit, 1, 3);
    if |c.accesses| == 2 {
      SpacedBy(cfg, c.accesses[0], c.accesses[1], 1, 3);
      assert more[0] == c.accesses[0] && more[1] == c.accesses[1] && more[2] == hit;
    }
  }

  lemma SearchValid(cfg: Config, s: State, info: Info, ip: string, timeDiff: int)
    requires Valid(cfg, s) && s.target == []
    ensures NoneEmpty(s.candidates) && Valid(cfg, SearchCandidates(cfg, s, info, ip, timeDiff).state)
  {
    hide Similar, Spaced, Continues;
    var cs := s.candidates;
    var k := FirstMatch(cfg, cs, info, 0);
    var hit := if k < |cs| then info.(timestamp := Last(cs[k].accesses).timestamp + cfg.interval) else info;
    if k < |cs| { CandidateGrows(cfg, cs[k], info, hit); }
    var extended := if k < |cs| then cs[k := cs[k].(accesses := cs[k].accesses + [hit])] else cs;
    var id := (s.currentTargetId + 1) % UINT32;
    if k == |cs| || |cs[k].accesses| == 1 {
      InsertOrdered(extended, Candidate(id, [hit]));
      InsertValid(cfg, extended, Candidate(id, [hit]));
      InsertValid(cfg, [], Candidate(id, [hit]));
    }
  }

  lemma ProcessAllValid(cfg: Config, s: State, infos: seq<Info>, ip: string, timeDiff: int)
    requires Valid(cfg, s) && ConfigOk(cfg)
    ensures Valid(cfg, ProcessAll(cfg, s, infos, ip, timeDiff))
    decreases |infos|
  {
    if infos != [] {
      var t := if s.target != [] then Track(cfg, s, infos[0], ip) else Tracked(s, Search, timeDiff);
      TrackValid(cfg, s, infos[0], ip, timeDiff);
      match t.verdict
      case Stop =>
      case Next => ProcessAllValid(cfg, t.state, infos[1..], ip, t.timeDiff);
      case Search =>
        SearchValid(cfg, t.state, infos[0], ip, t.timeDiff);
        var f := SearchCandidates(cfg, t.state, infos[0], ip, t.timeDiff);
        if !f.found { ProcessAllValid(cfg, f.state, infos[1..], ip, f.timeDiff); }
    }
  }

  /** All accesses of a message get the time of its arrival. */
  function Stamped(infos: seq<Info>, now: nat): seq<Info> {
    seq(|infos|, i requires 0 <= i < |infos| => infos[i].(timestamp := now))
  }

  /** processUeEstablishInfo */
  function ProcessMessage(cfg: Config, s: State, infos: seq<Info>, now: nat, ip: string): State
    requires Valid(cfg, s) && ConfigOk(cfg)
  {
    ProcessAll(cfg, s, Stamped(infos, now), ip, 0)
  }

  /** Beyond this difference an access is overdue. */
  function Overdue(cfg: Config, misses: nat): int {
    Int32(Latest(cfg) + misses * (cfg.interval + cfg.margin / 2))
  }

  /** checkTarget; `jitter` is the random value added to a periodic report. */
  function Checked(cfg: Config, s: State, now: nat, jitter: int): State {
    if s.target == [] then s
    else
      var last := Last(s.target);
      var counted := s.(reportCount := (s.reportCount + 1) % UINT32);
      if TimeDiff(now, last.timestamp) > Overdue(cfg, s.missCount) then
        var missed := counted.(missCount := s.missCount + 1);
        if MissedTooOften(missed.missCount, |s.target|) then Forget(Send(missed, LOST))
        else Send(missed, Int32(last.prbPower - 5 * missed.missCount))
      else if counted.reportCount % 200 == 0 then Send(counted, Int32(last.prbPower + jitter))
      else counted
  }

  lemma CheckedValid(cfg: Config, s: State, now: nat, jitter: int)
    requires Valid(cfg, s)
    ensures Valid(cfg, Checked(cfg, s, now, jitter))
  {
  }

  // ----- Whole runs -----

  datatype Event = Message(infos: seq<Info>, at: nat, remoteIp: string) | Check(at: nat, jitter: int)

  const Initially := State([], [], 0, 0, 0, "", [])

  /** The state after any sequence of messages and clock checks, whatever their times. */
  function Run(cfg: Config, events: seq<Event>): (s: State)
    requires ConfigOk(cfg)
    ensures Valid(cfg, s)
    decreases |events|
  {
    if events == [] then Initially
    else
      var before := Run(cfg, events[..|events| - 1]);
      match events[|events| - 1]
      case Message(infos, now, ip) =>
        ProcessAllValid(cfg, before, Stamped(infos, now), ip, 0);
        ProcessMessage(cfg, before, infos, now, ip)
      case Check(now, jitter) => Checked(cfg, before, now, jitter)
  }

  /**
    Locking on: three accesses of one UE, each in the window after the one before (the second one
    counted from its expected time) and each similar to it, are a target.
   */
  lemma LocksOn(cfg: Config, s: State, a: Info, b: Info, c: Info, t1: nat, t2: nat, t3: nat, ip: string)
    requires ConfigOk(cfg) && Valid(cfg, s) && s.target == [] && s.candidates == [] && s.currentTargetId + 2 < UINT32
    requires Similar(a, b) && Similar(b, c)
    requires Earliest(cfg) <= TimeDiff(t2, t1) <= Latest(cfg)
    requires Earliest(cfg) <= TimeDiff(t3, t1 + cfg.interval) <= Latest(cfg)
    ensures var s1 := ProcessMessage(cfg, s, [a], t1, ip);
            && Valid(cfg, s1)
            && var s2 := ProcessMessage(cfg, s1, [b], t2, ip);
               && Valid(cfg, s2)
               && var s3 := ProcessMessage(cfg, s2, [c], t3, ip);
                  && s3.target == [a.(timestamp := t1), b.(timestamp := t1 + cfg.interval), c.(timestamp := t1 + 2 * cfg.interval)]
                  && s3.sent == s.sent + [Report(c.prbPower, ip)]
  {
    hide ProcessMessage, SearchCandidates, Valid, Similar, TimeDiff, Earliest, Latest;
    var a1, b1, b2, c1 := a.(timestamp := t1), b.(timestamp := t2), b.(timestamp := t1 + cfg.interval), c.(timestamp := t3);
    var id := s.currentTargetId;
    OneAccess(cfg, s, a, t1, ip);
    FirstAccess(cfg, s, a1, ip);
    var s1 := s.(currentTargetId := id + 1, candidates := [Candidate(id + 1, [a1])]);
    OneAccess(cfg, s1, b, t2, ip);
    assert Continues(cfg, s1.candidates[0], b1) by { SimilarStamped(a, b, a1, b1); }
    SecondAccess(cfg, s1, a1, b1, ip);
    var s2 := s.(currentTargetId := id + 2, candidates := [Candidate(id + 1, [a1, b2]), Candidate(id + 2, [b2])]);
    OneAccess(cfg, s2, c, t3, ip);
    assert Continues(cfg, s2.candidates[0], c1) by { SimilarStamped(b, c, b2, c1); }
    ThirdAccess(cfg, s2, a1, b2, Candidate(id + 2, [b2]), c1, ip);
  }

  lemma SimilarStamped(a: Info, b: Info, a': Info, b': Info)
    requires Similar(a, b) && a' == a.(timestamp := a'.timestamp) && b' == b.(timestamp := b'.timestamp)
    ensures Similar(a', b')
  {
  }

  lemma FirstAccess(cfg: Config, s: State, a: Info, ip: string)
    requires s.candidates == [] && s.currentTargetId + 1 < UINT32
    ensures var id := s.currentTargetId + 1;
            SearchCandidates(cfg, s, a, ip, 0).state == s.(currentTargetId := id, candidates := [Candidate(id, [a])])
  {
  }

  lemma SecondAccess(cfg: Config, s: State, a: Info, b: Info, ip: string)
    requires s.currentTargetId + 1 < UINT32 && s.candidates == [Candidate(s.currentTargetId, [a])]
    requires Continues(cfg, s.candidates[0], b)
    ensures var id, hit := s.currentTargetId + 1, b.(timestamp := a.timestamp + cfg.interval);
            SearchCandidates(cfg, s, b, ip, 0).state ==
              s.(currentTargetId := id, candidates := [Candidate(id - 1, [a, hit]), Candidate(id, [hit])])
  {
    var id, hit := s.currentTargetId + 1, b.(timestamp := a.timestamp + cfg.interval);
    assert FirstMatch(cfg, s.candidates, b, 0) == 0;
    assert [a] + [hit] == [a, hit];
    assert s.candidates[0 := Candidate(id - 1, [a, hit])] == [Candidate(id - 1, [a, hit])];
    Appended(Candidate(id - 1, [a, hit]), Candidate(id, [hit]));
  }

  lemma ThirdAccess(cfg: Config, s: State, a: Info, b: Info, d: Candidate, c: Info, ip: string)
    requires |s.candidates| == 2 && s.candidates[0].accesses == [a, b] && s.candidates[1] == d && d.accesses != []
    requires Continues(cfg, s.candidates[0], c)
    ensures NoneEmpty(s.candidates)
    ensures var t := SearchCandidates(cfg, s, c, ip, 0).state;
            && t.target == [a, b, c.(timestamp := b.timestamp + cfg.interval)]
            && t.sent == s.sent + [Report(c.prbPower, ip)]
  {
    assert FirstMatch(cfg, s.candidates, c, 0) == 0;
    assert [a, b] + [c.(timestamp := b.timestamp + cfg.interval)] == [a, b, c.(timestamp := b.timestamp + cfg.interval)];
  }

  lemma Appended(c: Candidate, d: Candidate)
    requires c.id < d.id
    ensures Insert([c], d) == [c, d]
  {
    assert [c][1..] == [];
  }

  /** A message with one access, when there is no target. */
  lemma OneAccess(cfg: Config, s: State, a: Info, now: nat, ip: string)
    requires ConfigOk(cfg) && Valid(cfg, s) && s.target == []
    ensures NoneEmpty(s.candidates) && Valid(cfg, ProcessMessage(cfg, s, [a], now, ip))
    ensures ProcessMessage(cfg, s, [a], now, ip) == SearchCandidates(cfg, s, a.(timestamp := now), ip, 0).state
  {
    var infos, info := Stamped([a], now), a.(timestamp := now);
    assert infos == [info] && infos[1..] == [];
    SearchValid(cfg, s, info, ip, 0);
    var f := SearchCandidates(cfg, s, info, ip, 0);
    assert !f.found ==> ProcessAll(cfg, f.state, [], ip, f.timeDiff) == f.state;
  }

  // ----- The receiver -----

  class UeLoginInfoReceiver {
    const cfg: Config
    var m_targetVect: seq<Info>
    var m_potentialTargetMap: seq<Candidate>
    var m_missCount: nat
    var m_currentTargetId: nat
    var m_reportCount: nat
    var m_remoteIp: string
    var sent: seq<Report>

    constructor (cfg: Config)
      requires ConfigOk(cfg)
      ensures Ok() && Abs() == Initially && this.cfg == cfg
    {
      this.cfg := cfg;
      m_targetVect, m_potentialTargetMap := [], [];
      m_missCount, m_currentTargetId, m_reportCount := 0, 0, 0;
      m_remoteIp, sent := "", [];
    }

    ghost function Abs(): State
      reads this
    {
      State(m_targetVect, m_potentialTargetMap, m_missCount, m_currentTargetId, m_reportCount, m_remoteIp, sent)
    }

    ghost predicate Ok()
      reads this
    {
      ConfigOk(cfg) && Valid(cfg, Abs())
    }

    method ReportTargetUe(prbPower: int)
      modifies this`sent
      ensures Abs() == Send(old(Abs()), prbPower)
    {
      sent := sent + [Report(prbPower, m_remoteIp)];
    }

    method ForgetAll()
      modifies this`m_missCount, this`m_targetVect, this`m_potentialTargetMap
      ensures Abs() == Forget(old(Abs()))
    {
      m_missCount := 0;
      m_targetVect := [];
      m_potentialTargetMap := [];
    }

    method CheckTarget(now: nat, jitter: int)
      requires Ok()
      modifies this
      ensures Ok() && Abs() == Checked(cfg, old(Abs()), now, jitter)
    {
      hide Valid, Overdue, Int32, TimeDiff;
      CheckedValid(cfg, Abs(), now, jitter);
      if |m_targetVect| > 0 {
        m_reportCount := (m_reportCount + 1) % UINT32;
        var maxTimeDiff := Overdue(cfg, m_missCount);
        var last := m_targetVect[|m_targetVect| - 1];
        var timeDiff := TimeDiff(now, last.timestamp);
        if timeDiff > maxTimeDiff {
          m_missCount := m_missCount + 1;
          if m_missCount > |m_targetVect| / 2 || m_missCount > 2 {
            ReportTargetUe(LOST);
            ForgetAll();
          } else {
            ReportTargetUe(Int32(last.prbPower - 5 * m_missCount));
          }
        } else if m_reportCount % 200 == 0 {
          ReportTargetUe(Int32(last.prbPower + jitter));
        }
      }
    }

    /** The first half of the loop of processUeEstablishInfo. */
    method TrackTarget(info: Info, remoteIp: string) returns (verdict: Verdict, timeDiff: int)
      requires Ok() && m_targetVect != []
      modifies this
      ensures Ok() && Tracked(Abs(), verdict, timeDiff) == Track(cfg, old(Abs()), info, remoteIp)
      ensures verdict == Search ==> m_targetVect == []
    {
      TrackValid(cfg, Abs(), info, remoteIp, 0);
      hide Valid;
      var maxTimeDiff := Int32(Latest(cfg) + m_missCount * (cfg.interval + cfg.margin / 4));
      var minTimeDiff := Int32(Earliest(cfg) + m_missCount * (cfg.interval - cfg.margin / 4));
      var last := m_targetVect[|m_targetVect| - 1];
      timeDiff := TimeDiff(info.timestamp, last.timestamp);
      if timeDiff >= minTimeDiff && timeDiff <= maxTimeDiff {
        if info.prbPower == 0 {
          return Next, timeDiff;
        }
        var hit := info.(timestamp := last.timestamp + (m_missCount + 1) * cfg.interval % UINT32);
        m_missCount := 0;
        m_remoteIp := remoteIp;
        m_targetVect := m_targetVect + [hit];
        ReportTargetUe(info.prbPower);
        verdict := Stop;
      } else if timeDiff < minTimeDiff {
        verdict := Next;
      } else {
        m_missCount := m_missCount + 1;
        if m_missCount > |m_targetVect| / 2 || m_missCount > 2 {
          ForgetAll();
          ReportTargetUe(LOST);
          verdict := Search;
        } else {
          ReportTargetUe(Int32(last.prbPower - 5 * m_missCount));
          verdict := Next;
        }
      }
    }

    /** The loop over the candidates; `timeDiff` is left as the last comparison set it. */
    method FindCandidate(info: Info, before: int) returns (k: nat, timeDiff: int)
      requires NoneEmpty(m_potentialTargetMap)
      ensures k == FirstMatch(cfg, m_potentialTargetMap, info, 0)
      ensures timeDiff == LastDiff(cfg, m_potentialTargetMap, info, before)
    {
      k, timeDiff := 0, before;
      while k < |m_potentialTargetMap|
        invariant k <= |m_potentialTargetMap|
        invariant FirstMatch(cfg, m_potentialTargetMap, info, 0) == FirstMatch(cfg, m_potentialTargetMap, info, k)
        invariant timeDiff == if k == 0 then before
                              else TimeDiff(info.timestamp, Last(m_potentialTargetMap[k - 1].accesses).timestamp)
      {
        var last := Last(m_potentialTargetMap[k].accesses);
        timeDiff := TimeDiff(info.timestamp, last.timestamp);
        if timeDiff >= Earliest(cfg) && timeDiff <= Latest(cfg) {
          var taDiff := Int16(info.ta - last.ta);
          var prbPowerDiff := Int32(info.prbPower - last.prbPower);
          if taDiff >= -1 && taDiff <= 1 && prbPowerDiff >= -20 && prbPowerDiff <= 20 {
            return;
          }
        }
        k := k + 1;
      }
    }

    /** The second half of the loop of processUeEstablishInfo. */
    method SearchTarget(info: Info, remoteIp: string, before: int) returns (found: bool, timeDiff: int)
      requires Ok() && m_targetVect == []
      modifies this
      ensures Ok() && NoneEmpty(old(m_potentialTargetMap))
      ensures Found(Abs(), found, timeDiff) == SearchCandidates(cfg, old(Abs()), info, remoteIp, before)
    {
      hide Valid;
      SearchValid(cfg, Abs(), info, remoteIp, before);
      var hit, k := info, 0;
      found := false;
      k, timeDiff := FindCandidate(info, before);
      if k < |m_potentialTargetMap| {
        var c := m_potentialTargetMap[k];
        hit := info.(timestamp := Last(c.accesses).timestamp + cfg.interval);
        m_potentialTargetMap := m_potentialTargetMap[k := c.(accesses := c.accesses + [hit])];
        if |c.accesses| + 1 == 3 {
          found := true;
          m_missCount := 0;
          m_remoteIp := remoteIp;
          m_targetVect := c.accesses + [hit];
          ReportTargetUe(info.prbPower);
        }
      }
      if found {
        m_potentialTargetMap := [];
      } else {
        m_currentTargetId := (m_currentTargetId + 1) % UINT32;
        if timeDiff > Latest(cfg) {
          m_potentialTargetMap := [];
        }
        m_potentialTargetMap := Insert(m_potentialTargetMap, Candidate(m_currentTargetId, [hit]));
      }
    }

    method ProcessUeEstablishInfo(infos: seq<Info>, now: nat, remoteIp: string)
      requires Ok()
      modifies this
      ensures Ok() && Abs() == ProcessMessage(cfg, old(Abs()), infos, now, remoteIp)
    {
      var stamped := Stamped(infos, now);
      var timeDiff := 0;
      ghost var goal := ProcessAll(cfg, Abs(), stamped, remoteIp, 0);
      for i := 0 to |stamped|
        invariant Ok() && ProcessAll(cfg, Abs(), stamped[i..], remoteIp, timeDiff) == goal
      {
        assert stamped[i..][0] == stamped[i] && stamped[i..][1..] == stamped[i + 1..];
        if |m_targetVect| > 0 {
          var verdict;
          verdict, timeDiff := TrackTarget(stamped[i], remoteIp);
          if verdict == Stop {
            return;
          } else if verdict == Next {
            continue;
          }
        }
        var found;
        found, timeDiff := SearchTarget(stamped[i], remoteIp, timeDiff);
        if found {
          return;
        }
      }
    }
  }
}
