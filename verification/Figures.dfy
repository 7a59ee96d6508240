/** The per-domain figures of a run's receipt, from its own events and seat ratios. */
module Figures {
  import opened Wrappers
  import opened Text
  import opened Json
  import opened Ratios
  import opened Ledger
  import opened Platform
  import opened Receipts
  import opened Producer
  import opened LiveRun
  import opened RunFacts
  import Agreement
  import Members
  import Seats
  import Verify

  /** Of each event its domain and seat, with the ratio of the exposure entry at the same place. */
  function SignedShares(r: Receipt): (shares: seq<Share>)
    requires |r.exposures| == |r.events|
    ensures |shares| == |r.events|
  {
    seq(|r.events|, i requires 0 <= i < |r.events| =>
      Share(r.events[i].domain.GetOr(""), r.events[i].seat.GetOr(""), r.exposures[i].ratio))
  }

  /** Sorted by name, each domain once, with the exact sum of its seats' ratios and its seats in order. */
  predicate SaysDomains(ds: seq<DomainEntry>, shares: seq<Share>) {
    var names := SortedKeys(ByCodePoint, Domains(shares));
    |ds| == |names| &&
    forall i :: 0 <= i < |ds| ==>
                  ds[i] == DomainEntry(names[i], SumIn(names[i], shares), Some(SeatsIn(names[i], shares)))
  }

  /** The largest ratio of a seat. */
  predicate IsLargestRatio(x: real, shares: seq<Share>) {
    if shares == [] then x == 0.0
    else
      (exists i :: 0 <= i < |shares| && shares[i].ratio == x) && forall i :: 0 <= i < |shares| ==> shares[i].ratio <= x
  }

  /** The largest sum of a domain. */
  predicate IsLargestSum(x: real, shares: seq<Share>) {
    if shares == [] then x == 0.0
    else
      && (exists i :: 0 <= i < |shares| && SumIn(shares[i].domain, shares) == x)
      && (forall i :: 0 <= i < |shares| ==> SumIn(shares[i].domain, shares) <= x)
  }

  predicate SaysFigures(r: Receipt) {
    && |r.exposures| == |r.events|
    && var shares := SignedShares(r);
    && r.domains.Some? && SaysDomains(r.domains.value, shares)
    && r.maxSeat.Some? && IsLargestRatio(r.maxSeat.value, shares)
    && r.maxDomain == Some(r.maxProvider) && IsLargestSum(r.maxProvider, shares)
    && r.noDomainHasAll == Some(!Verify.AllInOneDomain(r.events))
  }

  lemma SharesOf(p: Platform, inputs: Inputs, seats: seq<Seat>, replies: Replies, r: Receipt)
    requires SeatsFit(inputs, seats)
    requires r.events == Agreement.SeenEvents(Events(p, inputs, seats, replies))
    requires r.exposures == Agreement.SeenExposures(seats, SeatShares(p, inputs, seats))
    ensures |r.exposures| == |r.events| && SignedShares(r) == SeatShares(p, inputs, seats)
  {
  }

  lemma DomainsSaid(shares: seq<Share>)
    requires AllMicro(shares)
    ensures SaysDomains(Agreement.SeenDomains(Accumulate(shares)), shares)
  {
    var t := Accumulate(shares);
    AccumulatePartitions(shares);
    hide Accumulate, SumIn, SeatsIn, SortedKeys, AllMicro;
    var names := SortedKeys(ByCodePoint, Domains(shares));
    forall i | 0 <= i < |names| ensures RatioAt(t, names[i]) == SumIn(names[i], shares) {
      AccumulateExact(names[i], shares);
    }
  }

  lemma SeatMaximum(shares: seq<Share>)
    requires AllMicro(shares)
    ensures IsLargestRatio(Round6(MaxOf(ShareRatios(shares))), shares)
  {
    var rs := ShareRatios(shares);
    var x := MaxOf(rs);
    if shares == [] {
      assert rs == [];
      assert 0.0 * MILLION == 0.0;
    } else {
      var i :| 0 <= i < |rs| && rs[i] == x;
      assert shares[i].ratio == x;
      assert forall j :: 0 <= j < |shares| ==> rs[j] == shares[j].ratio;
    }
    hide MaxOf, Round6;
    RoundOfMicro(x);
  }

  lemma SumOfShare(i: nat, shares: seq<Share>)
    requires AllMicro(shares) && i < |shares|
    ensures var t := Accumulate(shares); var d := shares[i].domain; d in t.ratio && t.ratio[d] == SumIn(d, shares)
  {
    AccumulatePartitions(shares);
    AccumulateExact(shares[i].domain, shares);
    hide Accumulate, SumIn, SeatsIn, AllMicro;
    assert shares[i].domain in Domains(shares);
  }

  lemma DomainOfKey(d: string, shares: seq<Share>) returns (i: nat)
    requires d in Accumulate(shares).ratio
    ensures i < |shares| && shares[i].domain == d
  {
    AccumulatePartitions(shares);
    hide Accumulate, SeatsIn;
    i :| 0 <= i < |shares| && shares[i].domain == d;
  }

  lemma DomainMaximum(shares: seq<Share>)
    requires AllMicro(shares)
    ensures IsLargestSum(Round6(MaxValue(Accumulate(shares).ratio)), shares)
  {
    hide Accumulate, SumIn, Round6, AllMicro;
    var t := Accumulate(shares);
    Verify.MaximumIsMicro(shares);
    forall i | 0 <= i < |shares|
      ensures shares[i].domain in t.ratio && t.ratio[shares[i].domain] == SumIn(shares[i].domain, shares)
    {
      SumOfShare(i, shares);
    }
    if shares != [] {
      assert shares[0].domain in t.ratio;
      var k :| k in t.ratio && t.ratio[k] == MaxValue(t.ratio);
      var i := DomainOfKey(k, shares);
      assert SumIn(shares[i].domain, shares) == MaxValue(t.ratio);
    } else if t.ratio != map[] {
      var k :| k in t.ratio;
      var i := DomainOfKey(k, shares);
    }
  }

  lemma FlagSaid(p: Platform, inputs: Inputs, seats: seq<Seat>, replies: Replies, r: Receipt)
    requires SeatsFit(inputs, seats)
    requires r.events == Agreement.SeenEvents(Events(p, inputs, seats, replies))
    ensures var shares := SeatShares(p, inputs, seats);
            SomeDomainHasAll(Accumulate(shares), AllSeats(shares)) <==> Verify.AllInOneDomain(r.events)
  {
    var shares := SeatShares(p, inputs, seats);
    assert forall i :: 0 <= i < |shares| ==> shares[i].seat == seats[i].fid;
    SomeDomainHasAllMeaning(shares);
    assert forall i :: 0 <= i < |shares| ==> r.events[i].domain == Some(shares[i].domain);
    hide SomeDomainHasAll, Accumulate;
    if Verify.AllInOneDomain(r.events) {
      forall i | 0 <= i < |shares| ensures shares[i].domain == shares[0].domain {
        assert r.events[i].domain == r.events[0].domain;
      }
    }
  }

  lemma SeenFigures(p: Platform, inputs: Inputs, seats: seq<Seat>, replies: Replies, r: Receipt)
    requires SeatsFit(inputs, seats)
    requires r.events == Agreement.SeenEvents(Events(p, inputs, seats, replies))
    requires var v := ViewOf(SeatShares(p, inputs, seats));
             && r.exposures == Agreement.SeenExposures(seats, v.shares)
             && r.domains == Some(Agreement.SeenDomains(v.totals)) && r.maxSeat == Some(v.maxSeat)
             && r.maxDomain == Some(v.maxDomain) && r.maxProvider == v.maxDomain
             && r.noDomainHasAll == Some(v.noDomainHasAll)
    ensures SaysFigures(r)
  {
    hide Accumulate, SomeDomainHasAll, MaxValue, MaxOf, Round6, AllMicro, Verify.AllInOneDomain, IsLargestRatio,
      IsLargestSum, SaysDomains, SeatShares, SignedShares;
    var shares := SeatShares(p, inputs, seats);
    Agreement.RatiosAreMicro(p, inputs, seats);
    SharesOf(p, inputs, seats, replies, r);
    DomainsSaid(shares);
    SeatMaximum(shares);
    DomainMaximum(shares);
    FlagSaid(p, inputs, seats, replies, r);
  }

  /** The figures of every run's receipt. */
  lemma ReceiptFigures(m: Machine, c: Command)
    requires Laws(m.p) && ReceiptIn(Live(m, c).outcome).Some?
    ensures SaysFigures(Members.View(ReceiptIn(Live(m, c).outcome).value))
  {
    hide Live, ChainGate, SendAndSeal, LoadInputs, LeakFree, RingAccepts, Seats.Resolve, Read, HasRequired,
      Members.View, SaysFigures, Laws, Body, Signed, ViewOf, SeatShares, Events, Agreement.SeenEvents,
      Agreement.SeenDomains, Agreement.SeenExposures, Responses, Members.WellTyped;
    var plan := PlanOf(m, c);
    SealedOutcome(m, plan.inputs, plan.seats, plan.prev);
    var d := ReceiptOf(m, plan.inputs, plan.seats, plan.prev);
    var replies := Responses(m.reply, plan.seats, |plan.seats|);
    Agreement.SignedReads(m.p, m.key, LOCAL_KEY_ID, ContextOf(m), plan.inputs, plan.seats, replies, plan.prev);
    Members.Readable(d);
    SeenFigures(m.p, plan.inputs, plan.seats, replies, Read(d).value);
  }
}
