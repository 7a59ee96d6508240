/**
  The verifier's loops, what an accepted receipt proves about its exposure figures, and what an
  accepted chain proves about its history.
 */
module Verify {
  import opened Wrappers
  import opened Text
  import opened Json
  import opened Ratios
  import opened Ledger
  import opened Platform
  import opened Receipts
  import Utf8

  // ---------- the trust-domain check as a loop ----------

  lemma {:induction false} AccountFailsAt(events: seq<Event>, ratios: map<string, real>, i: nat)
    requires i < |events| && AllAccountable(events[..i], ratios) && !Accountable(events[i], ratios)
    ensures AccountVerdict(events, ratios)
            == Invalid(if events[i].seat.None? || events[i].domain.None? then SeatOrDomainMissing else NoSeatRatio)
  {
    if i > 0 {
      assert Accountable(events[..i][0], ratios);
      var rest := events[1..][..i - 1];
      forall j | 0 <= j < |rest| ensures Accountable(rest[j], ratios) {
        assert rest[j] == events[..i][j + 1];
      }
      AccountFailsAt(events[1..], ratios, i - 1);
    }
  }

  lemma SharesExtend(events: seq<Event>, ratios: map<string, real>, i: nat)
    requires i < |events| && AllAccountable(events[..i], ratios) && Accountable(events[i], ratios)
    ensures AllAccountable(events[..i + 1], ratios)
    ensures EventShares(events[..i + 1], ratios)
            == EventShares(events[..i], ratios)
               + [Share(events[i].domain.value, events[i].seat.value, ratios[events[i].provider.value])]
  {
    var a, b := events[..i], events[..i + 1];
    assert b == a + [events[i]];
    assert forall j :: 0 <= j < i ==> b[j] == a[j];
  }

  /** The recomputation loop: both dictionaries are filled event by event. */
  method Recompute(events: seq<Event>, ratios: map<string, real>)
    returns (v: Verdict, recomputed: map<string, real>, recomputedSeats: map<string, seq<string>>)
    ensures v == AccountVerdict(events, ratios)
    ensures v == Valid ==> Totals(recomputed, recomputedSeats) == Accumulate(EventShares(events, ratios))
  {
    recomputed, recomputedSeats := map[], map[];
    for i := 0 to |events|
      invariant AllAccountable(events[..i], ratios)
      invariant Totals(recomputed, recomputedSeats) == Accumulate(EventShares(events[..i], ratios))
    {
      var e := events[i];
      if e.seat.None? || e.domain.None? {
        AccountFailsAt(events, ratios, i);
        return Invalid(SeatOrDomainMissing), recomputed, recomputedSeats;
      }
      if e.provider.None? || e.provider.value !in ratios {
        AccountFailsAt(events, ratios, i);
        return Invalid(NoSeatRatio), recomputed, recomputedSeats;
      }
      SharesExtend(events, ratios, i);
      var d := e.domain.value;
      var ratio := ratios[e.provider.value];
      AccumulateNext(EventShares(events[..i], ratios), Share(d, e.seat.value, ratio));
      var sum := (if d in recomputed then recomputed[d] else 0.0) + ratio;
      recomputed := recomputed[d := Round6(sum)];
      var listed := if d in recomputedSeats then recomputedSeats[d] else [];
      recomputedSeats := recomputedSeats[d := listed + [e.seat.value]];
    }
    assert events[..|events|] == events;
    v := Valid;
  }

  /** `_check_trust_domain_consistency` */
  method CheckTrustDomains(p: Platform, r: Receipt) returns (v: Verdict)
    ensures v == DomainVerdict(p, r)
  {
    for i := 0 to |r.events|
      invariant forall j :: 0 <= j < i ==> HostAgrees(p, r.events[j])
    {
      if !HostAgrees(p, r.events[i]) {
        return Invalid(DomainNotOfHost);
      }
    }
    if r.domains.None? {
      return SeatMaxVerdict(r);
    }
    var ratios := SeatRatios(r.exposures);
    var account, recomputed, recomputedSeats := Recompute(r.events, ratios);
    if account != Valid {
      return account;
    }
    v := CompareClaims(r, r.domains.value, Totals(recomputed, recomputedSeats), EventShares(r.events, ratios));
  }

  /** The comparisons that follow the recomputation. */
  method CompareClaims(r: Receipt, ds: seq<DomainEntry>, t: Totals, shares: seq<Share>) returns (v: Verdict)
    requires t == Accumulate(shares)
    ensures v == TotalsVerdict(r, ds, shares)
  {
    if SetOf(DomainNames(ds)) != t.ratio.Keys {
      return Invalid(DomainsDiffer);
    }
    for i := 0 to |ds|
      invariant forall j :: 0 <= j < i ==> EntryRatioAgrees(ds[j], t)
    {
      if !EntryRatioAgrees(ds[i], t) {
        return Invalid(RatioDiffers);
      }
    }
    for i := 0 to |ds|
      invariant forall j :: 0 <= j < i ==> EntrySeatsAgree(ds[j], t)
    {
      if !EntrySeatsAgree(ds[i], t) {
        return Invalid(SeatsDiffer);
      }
    }
    if r.noDomainHasAll.Some? && r.noDomainHasAll.value != !SomeDomainHasAll(t, AllSeats(shares)) {
      return Invalid(FlagDiffers);
    }
    var value := Round6(MaxValue(t.ratio));
    if !FieldClose(r.maxDomain, value) || !Close(r.maxProvider, value) {
      return Invalid(MaxDiffers);
    }
    v := SeatMaxVerdict(r);
  }

  // ---------- soundness of an accepted receipt ----------

  /** The seats of the events that declare domain `d`. */
  function SeatsOfDomain(events: seq<Event>, d: string): set<string> {
    set i | 0 <= i < |events| && events[i].domain == Some(d) && events[i].seat.Some? :: events[i].seat.value
  }

  function EventDomains(events: seq<Event>): set<string> {
    set i | 0 <= i < |events| && events[i].domain.Some? :: events[i].domain.value
  }

  /** Half a millionth for each of `k` roundings, and one for the verifier's tolerance. */
  function Slack(k: nat): real {
    k as real / 2.0 + 1.0
  }

  lemma SharesDomains(events: seq<Event>, ratios: map<string, real>)
    requires AllAccountable(events, ratios)
    ensures Domains(EventShares(events, ratios)) == EventDomains(events)
  {
    var s := EventShares(events, ratios);
    forall d ensures d in Domains(s) <==> d in EventDomains(events) {
      if d in Domains(s) {
        var i :| 0 <= i < |s| && s[i].domain == d;
        assert events[i].domain.value == d;
      }
      if d in EventDomains(events) {
        var i :| 0 <= i < |events| && events[i].domain.Some? && events[i].domain.value == d;
        assert s[i].domain == d;
      }
    }
  }

  lemma SharesSeats(events: seq<Event>, ratios: map<string, real>, d: string)
    requires AllAccountable(events, ratios)
    ensures SetOf(SeatsIn(d, EventShares(events, ratios))) == SeatsOfDomain(events, d)
  {
    var s := EventShares(events, ratios);
    SeatsInMembers(d, s);
    forall x ensures x in SetOf(SeatsIn(d, s)) <==> x in SeatsOfDomain(events, d) {
      if x in SetOf(SeatsIn(d, s)) {
        assert x in SeatsIn(d, s);
        var i :| 0 <= i < |s| && s[i].domain == d && s[i].seat == x;
        assert events[i].domain == Some(d) && events[i].seat.value == x;
      }
      if x in SeatsOfDomain(events, d) {
        var i :| 0 <= i < |events| && events[i].domain == Some(d) && events[i].seat.Some? && events[i].seat.value == x;
        assert s[i].domain == d && s[i].seat == x;
        assert x in SeatsIn(d, s);
      }
    }
  }

  lemma {:induction false} DeclaredSeatsAre(events: seq<Event>)
    requires forall i :: 0 <= i < |events| ==> events[i].seat.Some?
    ensures |DeclaredSeats(events)| == |events|
    ensures forall i :: 0 <= i < |events| ==> DeclaredSeats(events)[i] == events[i].seat.value
  {
    if events != [] {
      DeclaredSeatsAre(events[1..]);
      forall i | 0 <= i < |events| ensures DeclaredSeats(events)[i] == events[i].seat.value {
        assert i > 0 ==> events[i] == events[1..][i - 1];
      }
    }
  }

  /** What acceptance amounts to, check by check. */
  lemma AcceptedMeans(p: Platform, pub: Option<PublicKey>, m: Dict)
    ensures Accepted(p, pub, m) <==>
            HasRequired(m) && Read(m).Some? &&
            ShapeVerdict(Read(m).value) == Valid && DomainVerdict(p, Read(m).value) == Valid &&
            ReceiptHash(p, m) == Read(m).value.hash && SignatureVerdict(p, pub, Read(m).value) == Valid
  {
  }

  /** One claimed figure against the exact sum of the signed seat ratios of its domain. */
  predicate EntrySound(r: Receipt, d: DomainEntry, shares: seq<Share>) {
    && Abs(d.ratio - SumIn(d.domain, shares)) * MILLION <= Slack(CountIn(d.domain, shares))
    && (d.seats.Some? ==> SetOf(d.seats.value) == SeatsOfDomain(r.events, d.domain))
  }

  /**
    Every event is accounted for, the claimed domains are exactly those of the events, declared
    seat lists are exactly that domain's seats, and each claimed ratio is within (k/2 + 1)
    millionths of the exact sum of the k signed seat ratios.
   */
  predicate DomainFiguresSound(r: Receipt)
    requires r.domains.Some?
  {
    var ratios, ds := SeatRatios(r.exposures), r.domains.value;
    && AllAccountable(r.events, ratios)
    && SetOf(DomainNames(ds)) == EventDomains(r.events)
    && forall i :: 0 <= i < |ds| ==> EntrySound(r, ds[i], EventShares(r.events, ratios))
  }

  /**
    Each declared maximum is, up to the rounding, the largest exact sum of a domain; the seat
    maximum is the largest signed ratio; and the flag is false exactly when there are events and
    all of them declare one domain.
   */
  predicate SummaryFiguresSound(r: Receipt) {
    var ratios := SeatRatios(r.exposures);
    && AllAccountable(r.events, ratios)
    && var shares, ds := EventShares(r.events, ratios), EventDomains(r.events);
    && NearMaximum(ds, shares, r.maxProvider)
    && (r.maxDomain.Some? ==> NearMaximum(ds, shares, r.maxDomain.value))
    && (r.maxSeat.Some? ==> NearLargest(ratios, r.maxSeat.value))
    && (r.noDomainHasAll.Some? ==> r.noDomainHasAll.value == !AllInOneDomain(r.events))
  }

  predicate Covered(d: string, shares: seq<Share>, claim: real) {
    (SumIn(d, shares) - claim) * MILLION <= Slack(CountIn(d, shares))
  }

  predicate Reached(d: string, shares: seq<Share>, claim: real) {
    (claim - SumIn(d, shares)) * MILLION <= Slack(CountIn(d, shares))
  }

  /** No domain's sum is beyond the claim and some domain's sum comes up to it; without domains it is zero. */
  predicate NearMaximum(ds: set<string>, shares: seq<Share>, claim: real) {
    && (forall d :: d in ds ==> Covered(d, shares, claim))
    && if ds == {} then Close(claim, 0.0) else exists d :: d in ds && Reached(d, shares, claim)
  }

  /** Half a millionth of rounding and one of tolerance off the largest ratio. */
  predicate NearLargest(ratios: map<string, real>, claim: real) {
    ratios != map[] && Abs(claim - MaxValue(ratios)) * MILLION <= 1.5
  }

  predicate AllInOneDomain(events: seq<Event>) {
    events != [] && forall i :: 0 <= i < |events| ==> events[i].domain == events[0].domain
  }

  lemma DomainFigures(p: Platform, r: Receipt)
    requires DomainVerdict(p, r) == Valid && r.domains.Some?
    ensures DomainFiguresSound(r)
  {
    hide Accumulate, SumIn, CountIn, SeatMaxVerdict, Round6, MaxValue, SomeDomainHasAll, SeatRatios, Abs;
    var ratios, ds := SeatRatios(r.exposures), r.domains.value;
    assert AccountVerdict(r.events, ratios) == Valid;
    var shares := EventShares(r.events, ratios);
    var t := Accumulate(shares);
    assert TotalsVerdict(r, ds, shares) == Valid;
    AccumulatePartitions(shares);
    SharesDomains(r.events, ratios);
    hide EntryRatioAgrees, EntrySeatsAgree, EntrySound, DomainVerdict, EventDomains, SetOf;
    forall i | 0 <= i < |ds| ensures EntrySound(r, ds[i], shares) {
      assert EntryRatioAgrees(ds[i], t) && EntrySeatsAgree(ds[i], t);
      EntryIsSound(r, ds[i], ratios);
    }
  }

  lemma EntryIsSound(r: Receipt, d: DomainEntry, ratios: map<string, real>)
    requires AllAccountable(r.events, ratios)
    requires var t := Accumulate(EventShares(r.events, ratios)); EntryRatioAgrees(d, t) && EntrySeatsAgree(d, t)
    ensures EntrySound(r, d, EventShares(r.events, ratios))
  {
    hide Accumulate, SumIn, CountIn, SeatsOfDomain, SeatsIn;
    var shares := EventShares(r.events, ratios);
    AccumulatePartitions(shares);
    AccumulateBound(d.domain, shares);
    SharesSeats(r.events, ratios, d.domain);
  }

  lemma SummaryFigures(p: Platform, r: Receipt)
    requires ShapeVerdict(r) == Valid && DomainVerdict(p, r) == Valid && r.domains.Some?
    ensures SummaryFiguresSound(r)
  {
    hide Accumulate, SumIn, CountIn, SeatMaxVerdict, Round6, MaxValue, SomeDomainHasAll, SeatRatios, Abs, NearMaximum,
      EntryRatioAgrees, EntrySeatsAgree, EventsShape, AllInOneDomain, Close, NearLargest;
    var ratios := SeatRatios(r.exposures);
    assert AccountVerdict(r.events, ratios) == Valid;
    var shares := EventShares(r.events, ratios);
    assert TotalsVerdict(r, r.domains.value, shares) == Valid;
    MaximumIsNear(r, shares, r.maxProvider, ratios);
    if r.maxDomain.Some? {
      MaximumIsNear(r, shares, r.maxDomain.value, ratios);
    }
    LargestIsNear(r);
    FlagMeaning(r, shares, ratios);
  }

  lemma LargestIsNear(r: Receipt)
    requires SeatMaxVerdict(r) == Valid
    ensures r.maxSeat.Some? ==> NearLargest(SeatRatios(r.exposures), r.maxSeat.value)
  {
    hide MaxValue, SeatRatios;
  }

  lemma MaximumIsNear(r: Receipt, shares: seq<Share>, claim: real, ratios: map<string, real>)
    requires AllAccountable(r.events, ratios) && shares == EventShares(r.events, ratios)
    requires Close(claim, Round6(MaxValue(Accumulate(shares).ratio)))
    ensures NearMaximum(EventDomains(r.events), shares, claim)
  {
    hide Accumulate, SumIn, CountIn, EventDomains, Covered, Reached, Close, Round6;
    var t, ds := Accumulate(shares), EventDomains(r.events);
    SharesDomains(r.events, ratios);
    AccumulatePartitions(shares);
    assert t.ratio.Keys == ds;
    MaximumIsMicro(shares);
    forall d | d in ds ensures Covered(d, shares, claim) {
      ClaimCovers(shares, d, claim, MaxValue(t.ratio));
    }
    if ds != {} {
      assert t.ratio != map[];
      var k :| k in t.ratio && t.ratio[k] == MaxValue(t.ratio);
      ClaimReaches(shares, k, claim);
    } else {
      assert t.ratio == map[];
    }
  }

  lemma MaximumIsMicro(shares: seq<Share>)
    ensures Round6(MaxValue(Accumulate(shares).ratio)) == MaxValue(Accumulate(shares).ratio)
  {
    hide Accumulate, Round6;
    var m := Accumulate(shares).ratio;
    TotalsAreMicro(shares);
    if m == map[] {
      assert 0.0 * MILLION == 0.0;
    } else {
      var k :| k in m && m[k] == MaxValue(m);
    }
    RoundOfMicro(MaxValue(m));
  }

  lemma ClaimCovers(shares: seq<Share>, d: string, claim: real, top: real)
    requires Close(claim, top) && RatioAt(Accumulate(shares), d) <= top
    ensures Covered(d, shares, claim)
  {
    hide Accumulate, SumIn, CountIn, RatioAt;
    AccumulateBound(d, shares);
  }

  lemma ClaimReaches(shares: seq<Share>, d: string, claim: real)
    requires Close(claim, RatioAt(Accumulate(shares), d))
    ensures Reached(d, shares, claim)
  {
    hide Accumulate, SumIn, CountIn, RatioAt;
    AccumulateBound(d, shares);
  }

  lemma FlagMeaning(r: Receipt, shares: seq<Share>, ratios: map<string, real>)
    requires AllAccountable(r.events, ratios) && shares == EventShares(r.events, ratios)
    requires Unique(DeclaredSeats(r.events))
    ensures SomeDomainHasAll(Accumulate(shares), AllSeats(shares)) <==> AllInOneDomain(r.events)
  {
    DeclaredSeatsAre(r.events);
    forall i, j | 0 <= i < j < |shares| ensures shares[i].seat != shares[j].seat {
      assert DeclaredSeats(r.events)[i] != DeclaredSeats(r.events)[j];
    }
    SomeDomainHasAllMeaning(shares);
    if r.events != [] {
      SameDomains(r.events, ratios);
    }
  }

  /** Soundness of acceptance for a receipt with per-domain figures, whatever its ratios. */
  lemma AcceptedFiguresSound(p: Platform, pub: Option<PublicKey>, m: Dict)
    requires Accepted(p, pub, m) && Read(m).value.domains.Some?
    ensures DomainFiguresSound(Read(m).value) && SummaryFiguresSound(Read(m).value)
  {
    AcceptedMeans(p, pub, m);
    DomainFigures(p, Read(m).value);
    SummaryFigures(p, Read(m).value);
  }

  /** The seat maximum of any accepted receipt, with or without per-domain figures. */
  lemma AcceptedSeatMaximum(p: Platform, pub: Option<PublicKey>, m: Dict)
    requires Accepted(p, pub, m)
    ensures var r := Read(m).value; r.maxSeat.Some? ==> NearLargest(SeatRatios(r.exposures), r.maxSeat.value)
  {
    hide Read, SeatMaxVerdict, NearLargest;
    AcceptedMeans(p, pub, m);
    ReachesSeatMaximum(p, Read(m).value);
    LargestIsNear(Read(m).value);
  }

  lemma ReachesSeatMaximum(p: Platform, r: Receipt)
    requires DomainVerdict(p, r) == Valid
    ensures SeatMaxVerdict(r) == Valid
  {
    hide SeatMaxVerdict, Accumulate, SeatRatios, SomeDomainHasAll, MaxValue, Round6;
  }

  lemma SameDomains(events: seq<Event>, ratios: map<string, real>)
    requires AllAccountable(events, ratios) && events != []
    ensures var s := EventShares(events, ratios);
            (forall i :: 0 <= i < |s| ==> s[i].domain == s[0].domain)
            <==> forall i :: 0 <= i < |events| ==> events[i].domain == events[0].domain
  {
    var s := EventShares(events, ratios);
    assert forall i :: 0 <= i < |s| ==> Some(s[i].domain) == events[i].domain;
    if forall i :: 0 <= i < |s| ==> s[i].domain == s[0].domain {
      forall i | 0 <= i < |events| ensures events[i].domain == events[0].domain {
        assert s[i].domain == s[0].domain;
      }
    }
    if forall i :: 0 <= i < |events| ==> events[i].domain == events[0].domain {
      forall i | 0 <= i < |s| ensures s[i].domain == s[0].domain {
        assert events[i].domain == events[0].domain;
      }
    }
  }
}
