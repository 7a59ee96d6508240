/**
  Concurrent requests: check and book are separate indivisible steps of the threads of one
  server, at most `k` requests are between the two at a time, and the clock never goes back.
 */
module RelayThreads {
  import opened Relay
  import Wrappers

  datatype Pending = Pending(ip: string, session: string, live: bool)

  datatype Step = Check(day: nat, q: Request) | Book(day: nat, index: nat)

  /** Counters, requests checked but not yet booked, the latest day seen, and the 200 replies booked. */
  datatype World = World(s: Counters, pending: seq<Pending>, today: nat, log: seq<Entry>)

  const START := World(FRESH, [], 0, [])

  predicate Enabled(k: nat, w: World, step: Step) {
    step.day >= w.today && if step.Check? then |w.pending| < k else step.index < |w.pending|
  }

  function Next(c: Config, w: World, step: Step): World
    requires step.Book? ==> step.index < |w.pending|
  {
    match step
    case Check(day, q) =>
      var reply := ReplyFor(c, CheckResult(c, w.s, day, q.(session := Clip(q.session))));
      if reply.BadRequest? then w.(today := day)
      else w.(pending := w.pending + [Pending(q.ip, Clip(q.session), reply.live)], today := day)
    case Book(day, i) =>
      var r := w.pending[i];
      World(Booked(c, w.s, day, r.ip, r.session, r.live), w.pending[..i] + w.pending[i + 1..], day,
            w.log + [Entry(r.ip, r.session, day, r.live)])
  }

  /** Every step was possible when it was taken. */
  predicate Legal(c: Config, k: nat, steps: seq<Step>)
    decreases |steps|, 0
  {
    steps == [] ||
    (Legal(c, k, steps[..|steps| - 1]) && Enabled(k, Exec(c, k, steps[..|steps| - 1]), steps[|steps| - 1]))
  }

  function Exec(c: Config, k: nat, steps: seq<Step>): World
    requires Legal(c, k, steps)
    decreases |steps|, 1
  {
    if steps == [] then START else Next(c, Exec(c, k, steps[..|steps| - 1]), steps[|steps| - 1])
  }

  /** How many pending requests are of a kind. */
  function Matching(ps: seq<Pending>, kind: Pending -> bool): (n: nat)
    ensures n <= |ps|
  {
    if ps == [] then 0 else Matching(ps[..|ps| - 1], kind) + if kind(ps[|ps| - 1]) then 1 else 0
  }

  function IsLive(): Pending -> bool {
    (r: Pending) => r.live
  }

  function LiveFrom(ip: string): Pending -> bool {
    (r: Pending) => r.live && r.ip == ip
  }

  function LiveIn(session: string): Pending -> bool {
    (r: Pending) => r.live && r.session == session
  }

  /** Approved live runs that are not on the books yet. */
  function LivePending(ps: seq<Pending>): (n: nat)
    ensures n <= |ps|
  {
    Matching(ps, IsLive())
  }

  lemma {:induction false} MatchingSplit(a: seq<Pending>, b: seq<Pending>, kind: Pending -> bool)
    ensures Matching(a + b, kind) == Matching(a, kind) + Matching(b, kind)
  {
    if b == [] {
      assert a + b == a;
    } else {
      var n := |b| - 1;
      assert (a + b)[..|a + b| - 1] == a + b[..n];
      MatchingSplit(a, b[..n], kind);
    }
  }

  lemma MatchingOne(r: Pending, kind: Pending -> bool)
    ensures Matching([r], kind) == if kind(r) then 1 else 0
  {
    assert [r][..0] == [];
  }

  lemma MatchingAdd(ps: seq<Pending>, r: Pending, kind: Pending -> bool)
    ensures Matching(ps + [r], kind) == Matching(ps, kind) + if kind(r) then 1 else 0
  {
    MatchingSplit(ps, [r], kind);
    MatchingOne(r, kind);
  }

  lemma {:induction false} MatchingRemove(ps: seq<Pending>, i: nat, kind: Pending -> bool)
    requires i < |ps|
    ensures Matching(ps, kind) == Matching(ps[..i] + ps[i + 1..], kind) + if kind(ps[i]) then 1 else 0
  {
    var a, one, b := ps[..i], [ps[i]], ps[i + 1..];
    assert ps == a + one + b;
    MatchingOne(ps[i], kind);
    hide Matching;
    MatchingSplit(a, b, kind);
    MatchingSplit(a + one, b, kind);
    MatchingSplit(a, one, kind);
  }

  /** `n` times the estimate. */
  function Times(e: nat, n: nat): nat {
    if n == 0 then 0 else e + Times(e, n - 1)
  }

  lemma {:induction false} TimesMonotone(e: nat, m: nat, n: nat)
    requires m <= n
    ensures Times(e, m) <= Times(e, n)
  {
    if m < n {
      TimesMonotone(e, m, n - 1);
    }
  }

  /** The cap and one estimate for each of the other requests in flight. */
  function Allowance(c: Config, k: nat): int
    requires k >= 1
  {
    c.cap + Times(c.estimate, k - 1)
  }

  /** Booked and approved cost of a day: approvals count for today and any later day. */
  function Committed(c: Config, w: World, day: nat): nat {
    CostOf(w.s, day) + if day >= w.today then Times(c.estimate, LivePending(w.pending)) else 0
  }

  /**
    If one live run does not fit under the cap none was ever approved; otherwise no day is
    committed beyond the cap by more than the other `k - 1` requests in flight.
   */
  ghost predicate Inv(c: Config, k: nat, w: World)
    requires k >= 1
  {
    && |w.pending| <= k
    && (forall d :: d > w.today ==> d !in w.s.cost)
    && if c.estimate > c.cap then w.s.cost == map[] && LivePending(w.pending) == 0
       else forall d :: Committed(c, w, d) <= Allowance(c, k)
  }

  /** The invariant survives the passing of days. */
  lemma DayPasses(c: Config, k: nat, w: World, day: nat)
    requires k >= 1 && Inv(c, k, w) && day >= w.today
    ensures Inv(c, k, w.(today := day))
  {
    var v := w.(today := day);
    if c.estimate <= c.cap {
      forall d ensures Committed(c, v, d) <= Allowance(c, k) {
        assert Committed(c, w, d) <= Allowance(c, k);
      }
    }
  }

  lemma ApprovalWithin(c: Config, k: nat, w: World, r: Pending, d: nat)
    requires k >= 1 && Inv(c, k, w) && |w.pending| < k && c.estimate <= c.cap
    requires r.live ==> CostOf(w.s, w.today) + c.estimate <= c.cap
    ensures Committed(c, w.(pending := w.pending + [r]), d) <= Allowance(c, k)
  {
    var n := LivePending(w.pending);
    MatchingAdd(w.pending, r, IsLive());
    assert Committed(c, w, d) <= Allowance(c, k);
    TimesMonotone(c.estimate, n, k - 1);
    assert d > w.today ==> d !in w.s.cost;
  }

  /** A live request may join the pending ones when it fits under the cap next to today's bookings. */
  lemma ApprovalKeeps(c: Config, k: nat, w: World, r: Pending)
    requires k >= 1 && Inv(c, k, w) && |w.pending| < k
    requires r.live ==> CostOf(w.s, w.today) + c.estimate <= c.cap
    ensures Inv(c, k, w.(pending := w.pending + [r]))
  {
    var v := w.(pending := w.pending + [r]);
    if c.estimate <= c.cap {
      forall d: nat ensures Committed(c, v, d) <= Allowance(c, k) {
        ApprovalWithin(c, k, w, r, d);
      }
    } else {
      MatchingAdd(w.pending, r, IsLive());
    }
  }

  lemma CheckKeeps(c: Config, k: nat, w: World, step: Step)
    requires k >= 1 && Inv(c, k, w) && step.Check? && step.day == w.today && |w.pending| < k
    ensures Inv(c, k, Next(c, w, step))
  {
    var q := step.q;
    var reply := ReplyFor(c, CheckResult(c, w.s, step.day, q.(session := Clip(q.session))));
    if !reply.BadRequest? {
      ApprovalKeeps(c, k, w, Pending(q.ip, Clip(q.session), reply.live));
    }
  }

  lemma BookKeeps(c: Config, k: nat, w: World, step: Step)
    requires k >= 1 && Inv(c, k, w) && step.Book? && step.day == w.today && step.index < |w.pending|
    ensures Inv(c, k, Next(c, w, step))
  {
    var v := Next(c, w, step);
    MatchingRemove(w.pending, step.index, IsLive());
    if c.estimate <= c.cap {
      TimesMonotone(c.estimate, LivePending(v.pending), LivePending(w.pending));
      forall d ensures Committed(c, v, d) <= Allowance(c, k) {
        assert Committed(c, w, d) <= Allowance(c, k);
      }
    }
  }

  lemma {:induction false} InvHolds(c: Config, k: nat, steps: seq<Step>)
    requires k >= 1 && Legal(c, k, steps)
    ensures Inv(c, k, Exec(c, k, steps))
  {
    if steps != [] {
      var before, step := steps[..|steps| - 1], steps[|steps| - 1];
      InvHolds(c, k, before);
      var w := Exec(c, k, before);
      DayPasses(c, k, w, step.day);
      var v := w.(today := step.day);
      assert Next(c, w, step) == Next(c, v, step);
      if step.Check? {
        CheckKeeps(c, k, v, step);
      } else {
        BookKeeps(c, k, v, step);
      }
    }
  }

  /** With at most `k` requests in flight no day's cost exceeds the cap by more than `k - 1` estimates. */
  lemma InterleavedCostBound(c: Config, k: nat, steps: seq<Step>)
    requires k >= 1 && Legal(c, k, steps)
    ensures var w := Exec(c, k, steps);
            forall d :: d in w.s.cost ==> w.s.cost[d] <= Allowance(c, k)
  {
    InvHolds(c, k, steps);
    var w := Exec(c, k, steps);
    forall d | d in w.s.cost ensures w.s.cost[d] <= Allowance(c, k) {
      assert c.estimate <= c.cap;
      assert Committed(c, w, d) <= Allowance(c, k);
    }
  }

  // ---------- the other limits ----------

  /** Nothing, or at most `k - 1` beyond a positive limit. */
  predicate Near(n: nat, limit: int, k: nat) {
    n == 0 || (limit >= 1 && n <= limit + k - 1)
  }

  /** Live replies of a session, booked or approved. */
  function InSession(w: World, session: string): nat {
    CountSession(w.log, true, session) + Matching(w.pending, LiveIn(session))
  }

  /** Live replies to an IP on a day: approvals count for today and any later day. */
  function FromIp(w: World, ip: string, day: nat): nat {
    CountIp(w.log, true, ip, day) + if day >= w.today then Matching(w.pending, LiveFrom(ip)) else 0
  }

  predicate SessionNear(c: Config, k: nat, w: World, session: string) {
    Near(InSession(w, session), c.perSession, k)
  }

  predicate IpNear(c: Config, k: nat, w: World, ip: string, day: nat) {
    Near(FromIp(w, ip, day), c.perIp, k)
  }

  ghost predicate LimitsInv(c: Config, k: nat, w: World) {
    && |w.pending| <= k
    && Faithful(c, w.s, w.log)
    && (forall session :: SessionNear(c, k, w, session))
    && (forall ip, day :: IpNear(c, k, w, ip, day))
    && (forall ip, day :: day > w.today ==> CountIp(w.log, false, ip, day) == 0)
  }

  lemma DayKeepsLimits(c: Config, k: nat, w: World, day: nat)
    requires LimitsInv(c, k, w) && day >= w.today
    ensures LimitsInv(c, k, w.(today := day))
  {
    var v := w.(today := day);
    forall session ensures SessionNear(c, k, v, session) {
      assert SessionNear(c, k, w, session);
    }
    forall ip, d ensures IpNear(c, k, v, ip, d) {
      assert IpNear(c, k, w, ip, d);
    }
  }

  /** An approved session has room for one more, and at most `k` approvals are pending. */
  lemma SessionKept(c: Config, k: nat, w: World, r: Pending, session: string)
    requires LimitsInv(c, k, w) && |w.pending| < k
    requires r.live ==> SessionCount(w.s, r.session) < c.perSession
    ensures SessionNear(c, k, w.(pending := w.pending + [r]), session)
  {
    MatchingAdd(w.pending, r, LiveIn(session));
    assert SessionNear(c, k, w, session);
    LiveCountsBelow(w.log, r.ip, w.today, session);
    assert SessionCount(w.s, session) == CountSession(w.log, false, session);
  }

  lemma IpKept(c: Config, k: nat, w: World, r: Pending, ip: string, day: nat)
    requires LimitsInv(c, k, w) && |w.pending| < k
    requires r.live ==> IpCount(w.s, r.ip, w.today) < c.perIp
    ensures IpNear(c, k, w.(pending := w.pending + [r]), ip, day)
  {
    MatchingAdd(w.pending, r, LiveFrom(ip));
    assert IpNear(c, k, w, ip, day);
    LiveCountsBelow(w.log, ip, day, r.session);
    assert IpCount(w.s, ip, day) == CountIp(w.log, false, ip, day);
  }

  lemma CheckKeepsLimits(c: Config, k: nat, w: World, step: Step)
    requires LimitsInv(c, k, w) && step.Check? && step.day == w.today && |w.pending| < k
    ensures LimitsInv(c, k, Next(c, w, step))
  {
    hide LimitsInv;
    var q := step.q.(session := Clip(step.q.session));
    var reply := ReplyFor(c, CheckResult(c, w.s, step.day, q));
    if reply.BadRequest? {
      assert Next(c, w, step) == w;
    } else {
      var r := Pending(q.ip, q.session, reply.live);
      assert Next(c, w, step) == w.(pending := w.pending + [r]);
      ApprovalKeepsLimits(c, k, w, r);
    }
  }

  lemma ApprovalKeepsLimits(c: Config, k: nat, w: World, r: Pending)
    requires LimitsInv(c, k, w) && |w.pending| < k
    requires r.live ==> SessionCount(w.s, r.session) < c.perSession && IpCount(w.s, r.ip, w.today) < c.perIp
    ensures LimitsInv(c, k, w.(pending := w.pending + [r]))
  {
    hide SessionNear, IpNear, Faithful, SessionCount, IpCount;
    var v := w.(pending := w.pending + [r]);
    forall session ensures SessionNear(c, k, v, session) {
      SessionKept(c, k, w, r, session);
    }
    forall ip, day ensures IpNear(c, k, v, ip, day) {
      IpKept(c, k, w, r, ip, day);
    }
  }

  lemma SessionBooked(c: Config, k: nat, w: World, i: nat, session: string)
    requires SessionNear(c, k, w, session) && i < |w.pending|
    ensures SessionNear(c, k, Next(c, w, Book(w.today, i)), session)
  {
    var r := w.pending[i];
    MatchingRemove(w.pending, i, LiveIn(session));
    CountSessionNext(w.log, Entry(r.ip, r.session, w.today, r.live), true, session);
  }

  lemma IpBooked(c: Config, k: nat, w: World, i: nat, ip: string, day: nat)
    requires IpNear(c, k, w, ip, day) && i < |w.pending|
    ensures IpNear(c, k, Next(c, w, Book(w.today, i)), ip, day)
  {
    var r := w.pending[i];
    MatchingRemove(w.pending, i, LiveFrom(ip));
    CountIpNext(w.log, Entry(r.ip, r.session, w.today, r.live), true, ip, day);
  }

  lemma BookKeepsLimits(c: Config, k: nat, w: World, i: nat)
    requires LimitsInv(c, k, w) && i < |w.pending|
    ensures LimitsInv(c, k, Next(c, w, Book(w.today, i)))
  {
    hide SessionNear, IpNear, Faithful;
    var r := w.pending[i];
    var e := Entry(r.ip, r.session, w.today, r.live);
    var v := Next(c, w, Book(w.today, i));
    FaithfulNext(c, w.s, w.log, e);
    forall session ensures SessionNear(c, k, v, session) {
      SessionBooked(c, k, w, i, session);
    }
    forall ip, day ensures IpNear(c, k, v, ip, day) {
      IpBooked(c, k, w, i, ip, day);
    }
    forall ip, day | day > w.today ensures CountIp(v.log, false, ip, day) == 0 {
      CountIpNext(w.log, e, false, ip, day);
    }
  }

  lemma {:induction false} LimitsInvHolds(c: Config, k: nat, steps: seq<Step>)
    requires Legal(c, k, steps)
    ensures LimitsInv(c, k, Exec(c, k, steps))
  {
    hide LimitsInv;
    if steps == [] {
      StartWithinLimits(c, k);
    } else {
      var before, step := steps[..|steps| - 1], steps[|steps| - 1];
      LimitsInvHolds(c, k, before);
      var w := Exec(c, k, before);
      DayKeepsLimits(c, k, w, step.day);
      var v := w.(today := step.day);
      assert Next(c, w, step) == Next(c, v, step);
      if step.Check? {
        CheckKeepsLimits(c, k, v, step);
      } else {
        BookKeepsLimits(c, k, v, step.index);
      }
    }
  }

  lemma StartWithinLimits(c: Config, k: nat)
    ensures LimitsInv(c, k, START)
  {
    assert forall day :: c.estimate * LiveOn([], day) == 0;
  }

  /**
    With at most `k` requests in flight, live replies per session and per (IP, day) exceed their
    limits by at most `k - 1`.
   */
  lemma InterleavedLimits(c: Config, k: nat, steps: seq<Step>)
    requires Legal(c, k, steps)
    ensures var w := Exec(c, k, steps);
            && (forall session :: Near(CountSession(w.log, true, session), c.perSession, k))
            && (forall ip, day :: Near(CountIp(w.log, true, ip, day), c.perIp, k))
  {
    LimitsInvHolds(c, k, steps);
    var w := Exec(c, k, steps);
    forall session ensures Near(CountSession(w.log, true, session), c.perSession, k) {
      assert SessionNear(c, k, w, session);
    }
    forall ip, day ensures Near(CountIp(w.log, true, ip, day), c.perIp, k) {
      assert IpNear(c, k, w, ip, day);
    }
  }

  // ---------- the bounds are reached ----------

  /** Room for one live run in every respect. */
  const ROOM_FOR_ONE := Config({"s"}, 1, 1, 10, 1, 1, true)

  const ASKING := Request("ip", "a", "s", "x")

  const WAITING := Pending("ip", "a", true)

  function Repeat<T>(x: T, n: nat): (r: seq<T>)
    ensures |r| == n && forall i :: 0 <= i < n ==> r[i] == x
  {
    seq(n, i => x)
  }

  lemma RepeatNext<T>(x: T, n: nat)
    requires n > 0
    ensures Repeat(x, n)[..n - 1] == Repeat(x, n - 1) && Repeat(x, n) == Repeat(x, n - 1) + [x]
    ensures Repeat(x, n)[..0] + Repeat(x, n)[1..] == Repeat(x, n - 1)
  {
  }

  /** `n` checks before any booking are all approved. */
  lemma {:induction false} AllApproved(k: nat, n: nat)
    requires n <= k
    ensures var steps := Repeat(Check(0, ASKING), n);
            Legal(ROOM_FOR_ONE, k, steps) && Exec(ROOM_FOR_ONE, k, steps) == World(FRESH, Repeat(WAITING, n), 0, [])
  {
    var steps := Repeat(Check(0, ASKING), n);
    if n > 0 {
      AllApproved(k, n - 1);
      RepeatNext(Check(0, ASKING), n);
      RepeatNext(WAITING, n);
      FirstIsLive();
    }
  }

  lemma FirstIsLive()
    ensures ReplyFor(ROOM_FOR_ONE, CheckResult(ROOM_FOR_ONE, FRESH, 0, ASKING.(session := Clip("a"))))
            == Served(true, Wrappers.Option.None)
    ensures Clip("a") == "a"
  {
  }

  /** Where `j` of them are booked. */
  predicate BookedSoFar(w: World, k: nat, j: nat)
    requires j <= k
  {
    w.pending == Repeat(WAITING, k - j) && w.today == 0 && CostOf(w.s, 0) == j &&
    CountSession(w.log, true, "a") == j && CountIp(w.log, true, "ip", 0) == j
  }

  lemma BookOne(w: World, k: nat, j: nat)
    requires j < k && BookedSoFar(w, k, j)
    ensures BookedSoFar(Next(ROOM_FOR_ONE, w, Book(0, 0)), k, j + 1)
  {
    RepeatNext(WAITING, k - j);
    var e := Entry("ip", "a", 0, true);
    CountSessionNext(w.log, e, true, "a");
    CountIpNext(w.log, e, true, "ip", 0);
  }

  /** All checks, then the first `j` bookings. */
  function ChecksThenBookings(k: nat, j: nat): seq<Step> {
    Repeat(Check(0, ASKING), k) + Repeat(Book(0, 0), j)
  }

  lemma OneMoreBooking(k: nat, j: nat)
    requires j > 0
    ensures var steps := ChecksThenBookings(k, j);
            steps != [] && steps[..|steps| - 1] == ChecksThenBookings(k, j - 1) && steps[|steps| - 1] == Book(0, 0)
    ensures ChecksThenBookings(k, 0) == Repeat(Check(0, ASKING), k)
  {
    RepeatNext(Book(0, 0), j);
  }

  lemma {:induction false} BookingsFollow(k: nat, j: nat)
    requires j <= k
    ensures var steps := ChecksThenBookings(k, j);
            Legal(ROOM_FOR_ONE, k, steps) && BookedSoFar(Exec(ROOM_FOR_ONE, k, steps), k, j)
  {
    hide ChecksThenBookings;
    if j == 0 {
      OneMoreBooking(k, 1);
      AllApproved(k, k);
    } else {
      OneMoreBooking(k, j);
      BookingsFollow(k, j - 1);
      var w := Exec(ROOM_FOR_ONE, k, ChecksThenBookings(k, j - 1));
      assert |w.pending| > 0 && w.today == 0;
      hide Next, BookedSoFar;
      BookOne(w, k, j - 1);
    }
  }

  lemma {:induction false} TimesOne(n: nat)
    ensures Times(1, n) == n
  {
    if n > 0 {
      TimesOne(n - 1);
    }
  }

  /** For every `k` some interleaving reaches all three bounds at once. */
  lemma BoundIsReached(k: nat) returns (steps: seq<Step>)
    requires k >= 1
    ensures var c := ROOM_FOR_ONE;
            && Legal(c, k, steps)
            && CostOf(Exec(c, k, steps).s, 0) == Allowance(c, k)
            && CountSession(Exec(c, k, steps).log, true, "a") == c.perSession + k - 1
            && CountIp(Exec(c, k, steps).log, true, "ip", 0) == c.perIp + k - 1
  {
    steps := ChecksThenBookings(k, k);
    BookingsFollow(k, k);
    TimesOne(k - 1);
  }
}
