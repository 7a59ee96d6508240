/**
  Admission control of the demo relay.  Costs are whole micro-dollars and a day is a number;
  `check` and `book` each look at the clock themselves, so midnight can fall between them.
 */
module Relay {
  import opened Wrappers

  datatype Config = Config(
    scenarios: set<string>, perIp: int, perSession: int, maxInput: int, cap: int, estimate: nat, livePool: bool)

  datatype Counters = Counters(ip: map<(string, nat), nat>, session: map<string, nat>, cost: map<nat, nat>)

  const FRESH := Counters(map[], map[], map[])

  function IpCount(s: Counters, ip: string, day: nat): nat {
    if (ip, day) in s.ip then s.ip[(ip, day)] else 0
  }

  function SessionCount(s: Counters, session: string): nat {
    if session in s.session then s.session[session] else 0
  }

  function CostOf(s: Counters, day: nat): nat {
    if day in s.cost then s.cost[day] else 0
  }

  datatype Reason = IpLimit | SessionLimit | CostCap | NoLiveProvider

  datatype Gate = BadScenario | BadLength | Live | Fallback(reason: Reason)

  datatype Request = Request(ip: string, session: string, scenario: string, text: string)

  function CheckResult(c: Config, s: Counters, day: nat, q: Request): Gate {
    if q.scenario !in c.scenarios then BadScenario
    else if q.text == "" || |q.text| > c.maxInput then BadLength
    else if IpCount(s, q.ip, day) >= c.perIp then Fallback(IpLimit)
    else if SessionCount(s, q.session) >= c.perSession then Fallback(SessionLimit)
    else if CostOf(s, day) + c.estimate > c.cap then Fallback(CostCap)
    else Live
  }

  function Booked(c: Config, s: Counters, day: nat, ip: string, session: string, live: bool): Counters {
    Counters(s.ip[(ip, day) := IpCount(s, ip, day) + 1],
             s.session[session := SessionCount(s, session) + 1],
             if live then s.cost[day := CostOf(s, day) + c.estimate] else s.cost)
  }

  /** `str(body.get("session_id", "anon"))[:64]` */
  function Clip(session: string): string {
    if |session| > 64 then session[..64] else session
  }

  datatype Reply = BadRequest | Served(live: bool, reason: Option<Reason>)

  /** What the handler answers once the gate has decided. */
  function ReplyFor(c: Config, g: Gate): Reply {
    match g
    case BadScenario => BadRequest
    case BadLength => BadRequest
    case Fallback(r) => Served(false, Some(r))
    case Live => if c.livePool then Served(true, None) else Served(false, Some(NoLiveProvider))
  }

  /** One whole request: checked on `day`, booked on `bookDay`. */
  function Handled(c: Config, s: Counters, q: Request, day: nat, bookDay: nat): (Counters, Reply) {
    var r := q.(session := Clip(q.session));
    var reply := ReplyFor(c, CheckResult(c, s, day, r));
    if reply.BadRequest? then (s, reply) else (Booked(c, s, bookDay, r.ip, r.session, reply.live), reply)
  }

  /** `RelayState`: three dictionaries of counters, updated in place. */
  class RelayState {
    const config: Config
    var ipCounts: map<(string, nat), nat>
    var sessionCounts: map<string, nat>
    var costByDay: map<nat, nat>

    function State(): Counters
      reads this
    {
      Counters(ipCounts, sessionCounts, costByDay)
    }

    constructor (config: Config)
      ensures this.config == config && State() == FRESH
    {
      this.config := config;
      ipCounts, sessionCounts, costByDay := map[], map[], map[];
    }

    /** Reads the counters and changes nothing. */
    method Check(day: nat, q: Request) returns (g: Gate)
      ensures g == CheckResult(config, State(), day, q)
    {
      if q.scenario !in config.scenarios {
        return BadScenario;
      }
      if q.text == "" || |q.text| > config.maxInput {
        return BadLength;
      }
      if (q.ip, day) in ipCounts {
        if ipCounts[(q.ip, day)] >= config.perIp {
          return Fallback(IpLimit);
        }
      } else if 0 >= config.perIp {
        return Fallback(IpLimit);
      }
      if (if q.session in sessionCounts then sessionCounts[q.session] else 0) >= config.perSession {
        return Fallback(SessionLimit);
      }
      if (if day in costByDay then costByDay[day] else 0) + config.estimate > config.cap {
        return Fallback(CostCap);
      }
      g := Live;
    }

    method Book(day: nat, ip: string, session: string, live: bool)
      modifies this
      ensures State() == Booked(config, old(State()), day, ip, session, live)
    {
      ipCounts := ipCounts[(ip, day) := (if (ip, day) in ipCounts then ipCounts[(ip, day)] else 0) + 1];
      sessionCounts := sessionCounts[session := (if session in sessionCounts then sessionCounts[session] else 0) + 1];
      if live {
        costByDay := costByDay[day := (if day in costByDay then costByDay[day] else 0) + config.estimate];
      }
    }

    /** `handle_demo_run` */
    method HandleDemoRun(q: Request, day: nat, bookDay: nat) returns (reply: Reply)
      modifies this
      ensures (State(), reply) == Handled(config, old(State()), q, day, bookDay)
      ensures reply.BadRequest? ==> State() == old(State())
    {
      var session := Clip(q.session);
      var gate := Check(day, q.(session := session));
      if gate.BadScenario? || gate.BadLength? {
        return BadRequest;
      }
      var live, reason := gate.Live?, if gate.Fallback? then Some(gate.reason) else None;
      if live && !config.livePool {
        live, reason := false, Some(NoLiveProvider);
      }
      Book(bookDay, q.ip, session, live);
      reply := Served(live, reason);
    }
  }

  // ---------- one request after another ----------

  /** A request with the days of its check and of its booking. */
  datatype Timed = Timed(q: Request, day: nat, bookDay: nat)

  datatype Entry = Entry(ip: string, session: string, day: nat, live: bool)

  /** The clock never goes back. */
  predicate Ordered(ts: seq<Timed>) {
    && (forall i :: 0 <= i < |ts| ==> ts[i].day <= ts[i].bookDay)
    && (forall i, j :: 0 <= i < j < |ts| ==> ts[i].bookDay <= ts[j].day)
  }

  /** Counters after all requests. */
  function After(c: Config, ts: seq<Timed>): Counters {
    if ts == [] then FRESH
    else
      var t := ts[|ts| - 1];
      Handled(c, After(c, ts[..|ts| - 1]), t.q, t.day, t.bookDay).0
  }

  /** The 200 replies, in order: who, on which day it was booked, and whether it was live. */
  function Log(c: Config, ts: seq<Timed>): seq<Entry> {
    if ts == [] then []
    else
      var t := ts[|ts| - 1];
      var before := ts[..|ts| - 1];
      var reply := Handled(c, After(c, before), t.q, t.day, t.bookDay).1;
      Log(c, before) +
      if reply.BadRequest? then [] else [Entry(t.q.ip, Clip(t.q.session), t.bookDay, reply.live)]
  }

  /** 200 replies to `ip` booked on `day`; only the live ones if `live`. */
  function CountIp(log: seq<Entry>, live: bool, ip: string, day: nat): nat {
    if log == [] then 0
    else
      var e := log[|log| - 1];
      CountIp(log[..|log| - 1], live, ip, day) + if e.ip == ip && e.day == day && (live ==> e.live) then 1 else 0
  }

  /** 200 replies to a session; only the live ones if `live`. */
  function CountSession(log: seq<Entry>, live: bool, session: string): nat {
    if log == [] then 0
    else
      var e := log[|log| - 1];
      CountSession(log[..|log| - 1], live, session) + if e.session == session && (live ==> e.live) then 1 else 0
  }

  /** Live replies booked on `day`. */
  function LiveOn(log: seq<Entry>, day: nat): nat {
    if log == [] then 0
    else
      var e := log[|log| - 1];
      LiveOn(log[..|log| - 1], day) + if e.day == day && e.live then 1 else 0
  }

  /** The counters say exactly what was served. */
  ghost predicate Faithful(c: Config, s: Counters, log: seq<Entry>) {
    && (forall ip, day :: IpCount(s, ip, day) == CountIp(log, false, ip, day))
    && (forall session :: SessionCount(s, session) == CountSession(log, false, session))
    && (forall day :: CostOf(s, day) == c.estimate * LiveOn(log, day))
  }

  lemma CountIpNext(log: seq<Entry>, e: Entry, live: bool, ip: string, day: nat)
    ensures CountIp(log + [e], live, ip, day)
            == CountIp(log, live, ip, day) + if e.ip == ip && e.day == day && (live ==> e.live) then 1 else 0
  {
    assert (log + [e])[..|log|] == log;
  }

  lemma CountSessionNext(log: seq<Entry>, e: Entry, live: bool, session: string)
    ensures CountSession(log + [e], live, session)
            == CountSession(log, live, session) + if e.session == session && (live ==> e.live) then 1 else 0
  {
    assert (log + [e])[..|log|] == log;
  }

  lemma LiveOnNext(log: seq<Entry>, e: Entry, day: nat)
    ensures LiveOn(log + [e], day) == LiveOn(log, day) + if e.day == day && e.live then 1 else 0
  {
    assert (log + [e])[..|log|] == log;
  }

  lemma FaithfulNext(c: Config, s: Counters, log: seq<Entry>, e: Entry)
    requires Faithful(c, s, log)
    ensures Faithful(c, Booked(c, s, e.day, e.ip, e.session, e.live), log + [e])
  {
    var t := Booked(c, s, e.day, e.ip, e.session, e.live);
    forall ip, day ensures IpCount(t, ip, day) == CountIp(log + [e], false, ip, day) {
      CountIpNext(log, e, false, ip, day);
      assert IpCount(s, ip, day) == CountIp(log, false, ip, day);
    }
    forall session ensures SessionCount(t, session) == CountSession(log + [e], false, session) {
      CountSessionNext(log, e, false, session);
      assert SessionCount(s, session) == CountSession(log, false, session);
    }
    forall day ensures CostOf(t, day) == c.estimate * LiveOn(log + [e], day) {
      LiveOnNext(log, e, day);
      var n := LiveOn(log, day);
      assert CostOf(s, day) == c.estimate * n;
      assert c.estimate * (n + 1) == c.estimate * n + c.estimate;
    }
  }

  /** The log entry of a request that was served. */
  function EntryOf(t: Timed, live: bool): Entry {
    Entry(t.q.ip, Clip(t.q.session), t.bookDay, live)
  }

  /** What the last request of a sequence did to counters and log. */
  lemma LastStep(c: Config, ts: seq<Timed>)
    requires ts != []
    ensures var before, t := ts[..|ts| - 1], ts[|ts| - 1];
            var s, log := After(c, before), Log(c, before);
            var g := CheckResult(c, s, t.day, t.q.(session := Clip(t.q.session)));
            var reply := ReplyFor(c, g);
            if reply.BadRequest? then After(c, ts) == s && Log(c, ts) == log
            else
              After(c, ts) == Booked(c, s, t.bookDay, t.q.ip, Clip(t.q.session), reply.live) &&
              Log(c, ts) == log + [EntryOf(t, reply.live)] && (reply.live ==> g == Live)
  {
  }

  /**
    Conservation: over every request sequence, each (IP, day) counter and each session counter is
    the number of 200 replies it stands for, and each day's cost is the estimate times the live
    replies booked that day.
   */
  lemma {:induction false} CountersFaithful(c: Config, ts: seq<Timed>)
    ensures Faithful(c, After(c, ts), Log(c, ts))
  {
    if ts == [] {
      assert forall day :: c.estimate * LiveOn([], day) == 0;
    } else {
      var before, t := ts[..|ts| - 1], ts[|ts| - 1];
      CountersFaithful(c, before);
      LastStep(c, ts);
      var reply := ReplyFor(c, CheckResult(c, After(c, before), t.day, t.q.(session := Clip(t.q.session))));
      if !reply.BadRequest? {
        FaithfulNext(c, After(c, before), Log(c, before), EntryOf(t, reply.live));
      }
    }
  }

  // ---------- exactly which reply ----------

  /** The 200 replies to the IP on the day of the check reach the limit. */
  predicate IpFull(c: Config, log: seq<Entry>, ip: string, day: nat) {
    CountIp(log, false, ip, day) >= c.perIp
  }

  predicate SessionFull(c: Config, log: seq<Entry>, session: string) {
    CountSession(log, false, session) >= c.perSession
  }

  /** One more live run that day would cost more than the cap. */
  predicate CapReached(c: Config, log: seq<Entry>, day: nat) {
    c.estimate * (LiveOn(log, day) + 1) > c.cap
  }

  lemma ClipIs(session: string)
    ensures Clip(session) <= session && |Clip(session)| == if |session| > 64 then 64 else |session|
  {
  }

  /**
    After every request sequence, the reply to the next request is decided by the replies logged so
    far: refused for its scenario or length; otherwise a fallback for the first of IP limit, session
    limit, cost cap and missing provider that applies; otherwise live.
   */
  lemma ReplyIs(c: Config, ts: seq<Timed>, q: Request, day: nat, bookDay: nat)
    ensures var log := Log(c, ts);
            var session := Clip(q.session);
            Handled(c, After(c, ts), q, day, bookDay).1 ==
            if q.scenario !in c.scenarios || q.text == "" || |q.text| > c.maxInput then BadRequest
            else if IpFull(c, log, q.ip, day) then Served(false, Some(IpLimit))
            else if SessionFull(c, log, session) then Served(false, Some(SessionLimit))
            else if CapReached(c, log, day) then Served(false, Some(CostCap))
            else if !c.livePool then Served(false, Some(NoLiveProvider))
            else Served(true, None)
  {
    hide Faithful, After, Log, CheckResult;
    CountersFaithful(c, ts);
    CheckIs(c, After(c, ts), Log(c, ts), day, q.(session := Clip(q.session)));
  }

  /** The gate in terms of what was served. */
  lemma CheckIs(c: Config, s: Counters, log: seq<Entry>, day: nat, q: Request)
    requires Faithful(c, s, log)
    ensures CheckResult(c, s, day, q) ==
            if q.scenario !in c.scenarios then BadScenario
            else if q.text == "" || |q.text| > c.maxInput then BadLength
            else if IpFull(c, log, q.ip, day) then Fallback(IpLimit)
            else if SessionFull(c, log, q.session) then Fallback(SessionLimit)
            else if CapReached(c, log, day) then Fallback(CostCap)
            else Live
  {
    hide CountIp, CountSession, LiveOn, IpCount, SessionCount, CostOf;
    assert IpCount(s, q.ip, day) == CountIp(log, false, q.ip, day);
    assert SessionCount(s, q.session) == CountSession(log, false, q.session);
    var n := LiveOn(log, day);
    assert CostOf(s, day) == c.estimate * n;
    assert c.estimate * (n + 1) == c.estimate * n + c.estimate;
  }

  // ---------- the counters add up ----------

  /** The sum of all counters of a dictionary. */
  ghost function Sum<K(!new)>(m: map<K, nat>): nat {
    if m == map[] then 0
    else
      var k :| k in m;
      m[k] + Sum(m - {k})
  }

  lemma {:induction false} SumRemove<K(!new)>(m: map<K, nat>, k: K)
    requires k in m
    ensures Sum(m) == m[k] + Sum(m - {k})
    decreases |m|
  {
    var j :| j in m && Sum(m) == m[j] + Sum(m - {j});
    if j != k {
      SumRemove(m - {j}, k);
      SumRemove(m - {k}, j);
      assert m - {j} - {k} == m - {k} - {j};
    }
  }

  lemma SumRaise<K(!new)>(m: map<K, nat>, k: K)
    ensures Sum(m[k := (if k in m then m[k] else 0) + 1]) == Sum(m) + 1
  {
    var u := m[k := (if k in m then m[k] else 0) + 1];
    SumRemove(u, k);
    assert u - {k} == m - {k};
    if k in m {
      SumRemove(m, k);
    } else {
      assert m - {k} == m;
    }
  }

  /** All IP counters together, and all session counters together, are the number of 200 replies. */
  lemma {:induction false} CountersSum(c: Config, ts: seq<Timed>)
    ensures Sum(After(c, ts).ip) == |Log(c, ts)|
    ensures Sum(After(c, ts).session) == |Log(c, ts)|
  {
    if ts != [] {
      var before, t := ts[..|ts| - 1], ts[|ts| - 1];
      CountersSum(c, before);
      LastStep(c, ts);
      var s := After(c, before);
      SumRaise(s.ip, (t.q.ip, t.bookDay));
      SumRaise(s.session, Clip(t.q.session));
    }
  }

  lemma {:induction false} LiveCountsBelow(log: seq<Entry>, ip: string, day: nat, session: string)
    ensures CountIp(log, true, ip, day) <= CountIp(log, false, ip, day)
    ensures CountSession(log, true, session) <= CountSession(log, false, session)
  {
    if log != [] {
      LiveCountsBelow(log[..|log| - 1], ip, day, session);
    }
  }

  /** Nothing is on the books of a day the clock has not reached. */
  lemma {:induction false} FutureIsEmpty(c: Config, ts: seq<Timed>, ip: string, day: nat)
    requires forall i :: 0 <= i < |ts| ==> ts[i].bookDay < day
    ensures CountIp(Log(c, ts), false, ip, day) == 0 && LiveOn(Log(c, ts), day) == 0
  {
    if ts != [] {
      var before, t := ts[..|ts| - 1], ts[|ts| - 1];
      FutureIsEmpty(c, before, ip, day);
      LastStep(c, ts);
      var reply := ReplyFor(c, CheckResult(c, After(c, before), t.day, t.q.(session := Clip(t.q.session))));
      if !reply.BadRequest? {
        CountIpNext(Log(c, before), EntryOf(t, reply.live), false, ip, day);
        LiveOnNext(Log(c, before), EntryOf(t, reply.live), day);
      }
    }
  }

  predicate IpWithin(c: Config, log: seq<Entry>, ip: string, day: nat) {
    CountIp(log, true, ip, day) > 0 ==> CountIp(log, true, ip, day) <= c.perIp
  }

  predicate SessionWithin(c: Config, log: seq<Entry>, session: string) {
    CountSession(log, true, session) > 0 ==> CountSession(log, true, session) <= c.perSession
  }

  /** Live replies within every limit, and no day's cost beyond the cap. */
  ghost predicate WithinLimits(c: Config, s: Counters, log: seq<Entry>) {
    && (forall ip, day :: IpWithin(c, log, ip, day))
    && (forall session :: SessionWithin(c, log, session))
    && (forall day :: day in s.cost ==> s.cost[day] <= c.cap)
  }

  lemma LiveStep(c: Config, s: Counters, log: seq<Entry>, e: Entry, q: Request, day: nat)
    requires WithinLimits(c, s, log) && Faithful(c, s, log) && day <= e.day && e.live
    requires q.ip == e.ip && q.session == e.session && CheckResult(c, s, day, q) == Live
    requires day < e.day ==> CountIp(log, false, e.ip, e.day) == 0 && LiveOn(log, e.day) == 0
    ensures WithinLimits(c, Booked(c, s, e.day, e.ip, e.session, true), log + [e])
  {
    assert IpCount(s, e.ip, e.day) == CountIp(log, false, e.ip, e.day);
    assert SessionCount(s, e.session) == CountSession(log, false, e.session);
    assert CostOf(s, e.day) == c.estimate * LiveOn(log, e.day);
    LiveCountsBelow(log, e.ip, e.day, e.session);
    forall ip, d ensures IpWithin(c, log + [e], ip, d) {
      CountIpNext(log, e, true, ip, d);
      assert IpWithin(c, log, ip, d);
    }
    forall session ensures SessionWithin(c, log + [e], session) {
      CountSessionNext(log, e, true, session);
      assert SessionWithin(c, log, session);
    }
    if day < e.day {
      assert c.estimate * 0 == 0;
    }
  }

  lemma FallbackStep(c: Config, s: Counters, log: seq<Entry>, e: Entry)
    requires WithinLimits(c, s, log) && !e.live
    ensures WithinLimits(c, Booked(c, s, e.day, e.ip, e.session, false), log + [e])
  {
    forall ip, d ensures IpWithin(c, log + [e], ip, d) {
      CountIpNext(log, e, true, ip, d);
      assert IpWithin(c, log, ip, d);
    }
    forall session ensures SessionWithin(c, log + [e], session) {
      CountSessionNext(log, e, true, session);
      assert SessionWithin(c, log, session);
    }
  }

  /**
    Sequential safety: over every request sequence with a clock that never goes back, live replies
    per (IP, day) and per session stay within their limits and no day's cost exceeds the cap, even
    when midnight falls between a check and its booking.
   */
  lemma {:induction false} SequentialSafety(c: Config, ts: seq<Timed>)
    requires Ordered(ts)
    ensures WithinLimits(c, After(c, ts), Log(c, ts))
  {
    if ts != [] {
      var n := |ts| - 1;
      var before, t := ts[..n], ts[n];
      var s, log := After(c, before), Log(c, before);
      SequentialSafety(c, before);
      CountersFaithful(c, before);
      LastStep(c, ts);
      var q := t.q.(session := Clip(t.q.session));
      var reply := ReplyFor(c, CheckResult(c, s, t.day, q));
      if !reply.BadRequest? {
        if reply.live {
          if t.day < t.bookDay {
            FutureIsEmpty(c, before, t.q.ip, t.bookDay);
          }
          LiveStep(c, s, log, EntryOf(t, true), q, t.day);
        } else {
          FallbackStep(c, s, log, EntryOf(t, false));
        }
      }
    }
  }

  /** A 400 reply changes nothing. */
  lemma BadRequestChangesNothing(c: Config, s: Counters, q: Request, day: nat, bookDay: nat)
    ensures Handled(c, s, q, day, bookDay).1.BadRequest? <==>
            q.scenario !in c.scenarios || q.text == "" || |q.text| > c.maxInput
    ensures Handled(c, s, q, day, bookDay).1.BadRequest? <==> Handled(c, s, q, day, bookDay).0 == s
  {
    var r := Handled(c, s, q, day, bookDay);
    if !r.1.BadRequest? {
      assert SessionCount(r.0, Clip(q.session)) == SessionCount(s, Clip(q.session)) + 1;
    }
  }

  lemma SessionNeverDrops(c: Config, s: Counters, q: Request, day: nat, bookDay: nat, session: string)
    ensures SessionCount(Handled(c, s, q, day, bookDay).0, session) >= SessionCount(s, session)
  {
  }

  /** A session at its limit is never served live again, whatever comes in between. */
  lemma {:induction false} SpentSessionStaysSpent(c: Config, ts: seq<Timed>, n: nat, session: string)
    requires n <= |ts| && SessionCount(After(c, ts[..n]), session) >= c.perSession
    ensures SessionCount(After(c, ts), session) >= c.perSession
    ensures forall q: Request, day, bookDay :: Clip(q.session) == session ==>
              var reply := Handled(c, After(c, ts), q, day, bookDay).1; !(reply.Served? && reply.live)
  {
    if n == |ts| {
      assert ts[..n] == ts;
    } else {
      var before, t := ts[..|ts| - 1], ts[|ts| - 1];
      assert before[..n] == ts[..n];
      SpentSessionStaysSpent(c, before, n, session);
      SessionNeverDrops(c, After(c, before), t.q, t.day, t.bookDay, session);
    }
  }
}
