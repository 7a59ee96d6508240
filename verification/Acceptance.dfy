/**
  What it takes for a receipt to be accepted, stated on what its members say: their forms, the
  figures that must agree, the hash and the signature.
 */
module Acceptance {
  import opened Wrappers
  import opened Text
  import opened Json
  import opened Ratios
  import opened Ledger
  import opened Platform
  import opened Receipts
  import opened Members
  import Verify
  import Utf8

  // ---------- forms ----------

  predicate Hex(c: char) {
    c in "0123456789abcdef"
  }

  predicate Letter(c: char) {
    'A' <= c <= 'Z' || 'a' <= c <= 'z'
  }

  predicate Digit(c: char) {
    '0' <= c <= '9'
  }

  /** Crockford's alphabet: the digits and the capital letters but I, L, O and U. */
  predicate Crockford(c: char) {
    Digit(c) || ('A' <= c <= 'Z' && c !in "ILOU")
  }

  predicate KeyCharacter(c: char) {
    Letter(c) || Digit(c) || c in "._-"
  }

  predicate Spelled(s: string, low: nat, high: nat, alphabet: char -> bool) {
    low <= |s| <= high && forall i :: 0 <= i < |s| ==> alphabet(s[i])
  }

  /** Between `low` and `high` characters of the alphabet, and possibly one line feed after them. */
  predicate Fits(s: string, low: nat, high: nat, alphabet: char -> bool) {
    Spelled(s, low, high, alphabet) || (s != "" && s[|s| - 1] == '\n' && Spelled(s[..|s| - 1], low, high, alphabet))
  }

  lemma AlphabetsAre(c: char)
    ensures IsLowerHex(c) <==> Hex(c)
    ensures IsCrockford(c) <==> Crockford(c)
    ensures IsKeyIdChar(c) <==> KeyCharacter(c)
  {
    HexIs(c);
    assert "ILOU" == ['I', 'L', 'O', 'U'] && "._-" == ['.', '_', '-'];
  }

  lemma HexIs(c: char)
    ensures IsLowerHex(c) <==> Hex(c)
  {
    var digits := "0123456789abcdef";
    if '0' <= c <= '9' {
      assert digits[c as int - '0' as int] == c;
    } else if 'a' <= c <= 'f' {
      assert digits[c as int - 'a' as int + 10] == c;
    }
  }

  lemma PatternsAre(s: string)
    ensures Hex64(s) <==> Fits(s, 64, 64, Hex)
    ensures Ulid(s) <==> Fits(s, 26, 26, Crockford)
    ensures KeyId(s) <==> Fits(s, 1, 64, KeyCharacter)
  {
    forall c ensures IsLowerHex(c) <==> Hex(c) ensures IsCrockford(c) <==> Crockford(c)
      ensures IsKeyIdChar(c) <==> KeyCharacter(c) {
      AlphabetsAre(c);
    }
    assert !IsLowerHex('\n') && !IsCrockford('\n') && !IsKeyIdChar('\n');
    hide IsLowerHex, IsCrockford, IsKeyIdChar, Hex, Crockford, KeyCharacter;
    if s != "" && s[|s| - 1] == '\n' {
      assert DropNewline(s) == s[..|s| - 1];
      assert !Spelled(s, 64, 64, Hex) && !Spelled(s, 26, 26, Crockford) && !Spelled(s, 1, 64, KeyCharacter);
    } else {
      assert DropNewline(s) == s;
    }
  }

  /** One event: the payload digest, and a completion that a truncation mark does not contradict. */
  predicate EventFits(e: Event) {
    && Fits(e.payloadHash, 64, 64, Hex)
    && (e.completion.Some? ==>
          && (e.completion.value == "complete" || e.completion.value == "truncated" || e.completion.value == "unknown")
          && (e.truncated == Some(true) ==> e.completion.value == "truncated")
          && (e.truncated == Some(false) ==> e.completion.value != "truncated"))
  }

  lemma {:induction false} EventShapeIs(e: Event)
    ensures EventShape(e) == Valid <==> EventFits(e)
  {
    PatternsAre(e.payloadHash);
    hide Hex64, Fits;
  }

  predicate NoSeatTwice(events: seq<Event>) {
    forall i, j :: 0 <= i < j < |events| && events[i].seat.Some? ==> events[i].seat != events[j].seat
  }

  /** No id twice: absent provider ids count as one id, absent seat ids do not count. */
  predicate NothingTwice(r: Receipt) {
    && (forall i, j :: 0 <= i < j < |r.events| ==> r.events[i].provider != r.events[j].provider)
    && NoSeatTwice(r.events)
    && (forall i, j :: 0 <= i < j < |r.exposures| ==> r.exposures[i].provider != r.exposures[j].provider)
    && (r.domains.Some? ==>
          forall i, j :: 0 <= i < j < |r.domains.value| ==> r.domains.value[i].domain != r.domains.value[j].domain)
  }

  lemma {:induction false} DeclaredSeatMembers(events: seq<Event>)
    ensures forall x :: x in DeclaredSeats(events) <==> exists i :: 0 <= i < |events| && events[i].seat == Some(x)
  {
    if events != [] {
      var rest := events[1..];
      DeclaredSeatMembers(rest);
      forall x ensures x in DeclaredSeats(events) <==> exists i :: 0 <= i < |events| && events[i].seat == Some(x) {
        if x in DeclaredSeats(rest) {
          var i :| 0 <= i < |rest| && rest[i].seat == Some(x);
          assert events[i + 1].seat == Some(x);
        }
        if i :| 0 <= i < |events| && events[i].seat == Some(x) {
          assert i > 0 ==> rest[i - 1].seat == Some(x);
        }
      }
    }
  }

  lemma UniqueCons(first: seq<string>, rest: seq<string>)
    requires |first| <= 1
    ensures Unique(first + rest) <==> Unique(rest) && (first != [] ==> first[0] !in rest)
  {
    var all := first + rest;
    if first != [] {
      assert forall i :: 0 <= i < |rest| ==> all[i + 1] == rest[i];
      assert all[0] == first[0];
      if Unique(all) {
        forall i, j | 0 <= i < j < |rest| ensures rest[i] != rest[j] {
          assert all[i + 1] != all[j + 1];
        }
      }
    } else {
      assert all == rest;
    }
  }

  lemma {:induction false} SeatsUnique(events: seq<Event>)
    ensures Unique(DeclaredSeats(events)) <==> NoSeatTwice(events)
  {
    if events != [] {
      var rest := events[1..];
      SeatsUnique(rest);
      DeclaredSeatMembers(rest);
      UniqueCons(if events[0].seat.Some? then [events[0].seat.value] else [], DeclaredSeats(rest));
      assert forall i :: 0 <= i < |rest| ==> rest[i] == events[i + 1];
      if NoSeatTwice(events) {
        forall i, j | 0 <= i < j < |rest| && rest[i].seat.Some? ensures rest[i].seat != rest[j].seat {
          assert events[i + 1].seat != events[j + 1].seat;
        }
      }
      hide Unique;
      if NoSeatTwice(rest) && (events[0].seat.Some? ==> events[0].seat.value !in DeclaredSeats(rest)) {
        forall i, j | 0 <= i < j < |events| && events[i].seat.Some? ensures events[i].seat != events[j].seat {
          assert rest[j - 1] == events[j];
        }
      }
    }
  }

  predicate EventsFit(events: seq<Event>) {
    forall i :: 0 <= i < |events| ==> EventFits(events[i])
  }

  predicate DigestsFit(hashes: seq<string>) {
    forall i :: 0 <= i < |hashes| ==> Fits(hashes[i], 64, 64, Hex)
  }

  /** `_check_shape`, beyond the types. */
  predicate WellFormed(r: Receipt) {
    && Fits(r.runId, 26, 26, Crockford) && Fits(r.hash, 64, 64, Hex) && Fits(r.keyId, 1, 64, KeyCharacter)
    && (r.prev.Some? ==> Fits(r.prev.value, 64, 64, Hex))
    && r.signature.Some?
    && EventsFit(r.events) && DigestsFit(r.localHashes)
    && NothingTwice(r)
  }

  lemma EventsFitIs(events: seq<Event>)
    ensures EventsShape(events) == Valid <==> EventsFit(events)
  {
    forall i | 0 <= i < |events| ensures EventShape(events[i]) == Valid <==> EventFits(events[i]) {
      EventShapeIs(events[i]);
    }
    hide EventShape, EventFits;
  }

  lemma DigestsFitIs(hashes: seq<string>)
    ensures DigestsFit(hashes) <==> !exists i :: 0 <= i < |hashes| && !Hex64(hashes[i])
  {
    forall i | 0 <= i < |hashes| ensures Hex64(hashes[i]) <==> Fits(hashes[i], 64, 64, Hex) {
      PatternsAre(hashes[i]);
    }
    hide Fits, Hex64;
  }

  lemma {:induction false} NothingTwiceIs(r: Receipt)
    ensures NothingTwice(r) <==>
            Unique(Providers(r.events)) && Unique(DeclaredSeats(r.events)) && Unique(ExposureProviders(r.exposures))
            && (r.domains.Some? ==> Unique(DomainNames(r.domains.value)))
  {
    SeatsUnique(r.events);
    hide DeclaredSeats;
  }

  lemma {:induction false} ShapeSteps(r: Receipt)
    ensures ShapeVerdict(r) == Valid <==>
            && Ulid(r.runId) && Hex64(r.hash) && (r.prev.Some? ==> Hex64(r.prev.value)) && r.signature.Some?
            && KeyId(r.keyId) && EventsShape(r.events) == Valid && DigestsFit(r.localHashes)
            && Unique(Providers(r.events)) && Unique(DeclaredSeats(r.events)) && Unique(ExposureProviders(r.exposures))
            && (r.domains.Some? ==> Unique(DomainNames(r.domains.value)))
  {
    DigestsFitIs(r.localHashes);
    hide Hex64, Ulid, KeyId, Unique, DigestsFit, EventsShape, Providers, DeclaredSeats, ExposureProviders, DomainNames;
  }

  lemma {:induction false} ShapeIs(r: Receipt)
    ensures ShapeVerdict(r) == Valid <==> WellFormed(r)
  {
    ShapeSteps(r);
    PatternsAre(r.runId);
    PatternsAre(r.hash);
    PatternsAre(r.keyId);
    if r.prev.Some? {
      PatternsAre(r.prev.value);
    }
    EventsFitIs(r.events);
    NothingTwiceIs(r);
    hide ShapeVerdict, Fits, Hex64, Ulid, KeyId, NothingTwice, Unique, EventsFit, DigestsFit, EventsShape, Providers,
      DeclaredSeats, ExposureProviders, DomainNames;
  }

  // ---------- figures ----------

  /** Not more than a millionth apart. */
  predicate Near(a: real, b: real) {
    -0.000001 <= a - b <= 0.000001
  }

  lemma CloseIs(a: real, b: real)
    ensures Close(a, b) <==> Near(a, b)
  {
  }

  /** The signed ratio of a provider. */
  function SignedRatio(provider: Option<string>, xs: seq<SeatExposure>): real {
    if xs == [] then 0.0
    else if provider == Some(xs[0].provider) then xs[0].ratio
    else SignedRatio(provider, xs[1..])
  }

  predicate SignedOnce(xs: seq<SeatExposure>) {
    forall i, j :: 0 <= i < j < |xs| ==> xs[i].provider != xs[j].provider
  }

  predicate Signs(xs: seq<SeatExposure>, provider: string) {
    exists j :: 0 <= j < |xs| && xs[j].provider == provider
  }

  lemma {:induction false} SignedIs(xs: seq<SeatExposure>, j: nat)
    requires SignedOnce(xs) && j < |xs|
    ensures SignedRatio(Some(xs[j].provider), xs) == xs[j].ratio
  {
    if j > 0 {
      assert xs[0].provider != xs[j].provider;
      var rest := xs[1..];
      assert forall i :: 0 <= i < |rest| ==> rest[i] == xs[i + 1];
      SignedIs(rest, j - 1);
    }
  }

  lemma {:induction false} RatiosAre(xs: seq<SeatExposure>)
    requires SignedOnce(xs)
    ensures forall k :: k in SeatRatios(xs) <==> Signs(xs, k)
    ensures forall j :: 0 <= j < |xs| ==>
                          xs[j].provider in SeatRatios(xs) && SeatRatios(xs)[xs[j].provider] == xs[j].ratio
  {
    if xs != [] {
      var n := |xs| - 1;
      var init := xs[..n];
      RatiosAre(init);
      forall k ensures k in SeatRatios(xs) <==> Signs(xs, k) {
        if Signs(init, k) {
          var j :| 0 <= j < n && init[j].provider == k;
          assert xs[j].provider == k;
        }
        if Signs(xs, k) {
          var j :| 0 <= j < |xs| && xs[j].provider == k;
          assert j < n ==> init[j].provider == k;
        }
      }
      forall j | 0 <= j < |xs|
        ensures xs[j].provider in SeatRatios(xs) && SeatRatios(xs)[xs[j].provider] == xs[j].ratio
      {
        if j < n {
          assert init[j] == xs[j] && xs[j].provider != xs[n].provider;
        }
      }
    }
  }

  /** The running total of a domain: its events in order, rounded to six places after each. */
  function Total(domain: string, events: seq<Event>, xs: seq<SeatExposure>): real {
    if events == [] then 0.0
    else
      var n := |events| - 1;
      var before := Total(domain, events[..n], xs);
      if events[n].domain == Some(domain) then Round6(before + SignedRatio(events[n].provider, xs)) else before
  }

  /** An event that names a seat, a domain and a provider with a signed ratio. */
  predicate Accounted(e: Event, xs: seq<SeatExposure>) {
    e.seat.Some? && e.domain.Some? && e.provider.Some? && Signs(xs, e.provider.value)
  }

  predicate AllAccounted(events: seq<Event>, xs: seq<SeatExposure>) {
    forall i :: 0 <= i < |events| ==> Accounted(events[i], xs)
  }

  lemma AccountedIs(events: seq<Event>, xs: seq<SeatExposure>)
    requires SignedOnce(xs)
    ensures AllAccountable(events, SeatRatios(xs)) <==> AllAccounted(events, xs)
  {
    RatiosAre(xs);
    hide SeatRatios, Signs;
  }

  lemma ShareRatioIs(e: Event, xs: seq<SeatExposure>)
    requires SignedOnce(xs) && Accountable(e, SeatRatios(xs))
    ensures SeatRatios(xs)[e.provider.value] == SignedRatio(e.provider, xs)
  {
    RatiosAre(xs);
    var j :| 0 <= j < |xs| && xs[j].provider == e.provider.value;
    SignedIs(xs, j);
    hide SeatRatios, SignedRatio;
  }

  lemma {:induction false} TotalIs(domain: string, events: seq<Event>, xs: seq<SeatExposure>)
    requires SignedOnce(xs) && AllAccountable(events, SeatRatios(xs))
    ensures RatioAt(Accumulate(EventShares(events, SeatRatios(xs))), domain) == Total(domain, events, xs)
  {
    var ratios := SeatRatios(xs);
    if events != [] {
      var n := |events| - 1;
      var e := events[n];
      assert events[..n + 1] == events;
      TotalIs(domain, events[..n], xs);
      Verify.SharesExtend(events, ratios, n);
      AccumulateNext(EventShares(events[..n], ratios), Share(e.domain.value, e.seat.value, ratios[e.provider.value]));
      ShareRatioIs(e, xs);
      hide Accumulate, EventShares, SeatRatios, SignedRatio, Round6, SignedOnce;
    }
  }

  /** The total of the domain of the i-th event. */
  function TotalAt(i: nat, events: seq<Event>, xs: seq<SeatExposure>): real
    requires i < |events|
  {
    Total(events[i].domain.GetOr(""), events, xs)
  }

  /** Within a millionth of the largest total, which is zero when there are no events. */
  predicate NearTop(claim: real, events: seq<Event>, xs: seq<SeatExposure>) {
    if events == [] then Near(claim, 0.0)
    else
      && (forall i :: 0 <= i < |events| ==> TotalAt(i, events, xs) <= claim + 0.000001)
      && (exists i :: 0 <= i < |events| && claim - 0.000001 <= TotalAt(i, events, xs))
  }

  predicate IsTop(top: real, events: seq<Event>, xs: seq<SeatExposure>) {
    if events == [] then top == 0.0
    else
      && (forall i :: 0 <= i < |events| ==> TotalAt(i, events, xs) <= top)
      && (exists i :: 0 <= i < |events| && TotalAt(i, events, xs) == top)
  }

  lemma LedgerAt(i: nat, events: seq<Event>, xs: seq<SeatExposure>)
    requires SignedOnce(xs) && AllAccountable(events, SeatRatios(xs)) && i < |events|
    ensures var t := Accumulate(EventShares(events, SeatRatios(xs)));
            events[i].domain.value in t.ratio && t.ratio[events[i].domain.value] == TotalAt(i, events, xs)
  {
    hide Accumulate, SeatRatios, SignedOnce, Total;
    var shares := EventShares(events, SeatRatios(xs));
    AccumulatePartitions(shares);
    assert shares[i].domain == events[i].domain.value;
    TotalIs(events[i].domain.value, events, xs);
  }

  lemma LedgerDomain(d: string, events: seq<Event>, ratios: map<string, real>) returns (i: nat)
    requires AllAccountable(events, ratios) && d in Accumulate(EventShares(events, ratios)).ratio
    ensures i < |events| && events[i].domain.value == d
  {
    hide Accumulate;
    var shares := EventShares(events, ratios);
    AccumulatePartitions(shares);
    assert d in Domains(shares);
    i :| 0 <= i < |shares| && shares[i].domain == d;
  }

  lemma LedgerTop(events: seq<Event>, xs: seq<SeatExposure>)
    requires SignedOnce(xs) && AllAccountable(events, SeatRatios(xs))
    ensures IsTop(MaxValue(Accumulate(EventShares(events, SeatRatios(xs))).ratio), events, xs)
  {
    hide Accumulate, SeatRatios, SignedRatio, SignedOnce, Total, TotalAt;
    var ratios := SeatRatios(xs);
    var t := Accumulate(EventShares(events, ratios));
    forall i | 0 <= i < |events|
      ensures events[i].domain.value in t.ratio && t.ratio[events[i].domain.value] == TotalAt(i, events, xs)
    {
      LedgerAt(i, events, xs);
    }
    hide EventShares, AllAccountable;
    if events != [] {
      assert events[0].domain.value in t.ratio;
      var k :| k in t.ratio && t.ratio[k] == MaxValue(t.ratio);
      var i := LedgerDomain(k, events, ratios);
      assert TotalAt(i, events, xs) == MaxValue(t.ratio);
    } else if t.ratio != map[] {
      var k :| k in t.ratio;
      var i := LedgerDomain(k, events, ratios);
    }
  }

  lemma NearIsTop(claim: real, top: real, events: seq<Event>, xs: seq<SeatExposure>)
    requires IsTop(top, events, xs)
    ensures Near(claim, top) <==> NearTop(claim, events, xs)
  {
    hide TotalAt;
    if events != [] {
      var i :| 0 <= i < |events| && TotalAt(i, events, xs) == top;
    }
  }

  lemma TopIs(claim: real, events: seq<Event>, xs: seq<SeatExposure>)
    requires SignedOnce(xs) && AllAccountable(events, SeatRatios(xs))
    ensures Close(claim, Round6(MaxValue(Accumulate(EventShares(events, SeatRatios(xs))).ratio))) <==>
            NearTop(claim, events, xs)
  {
    hide Accumulate, MaxValue, IsTop, NearTop, Close, Near, Round6, SeatRatios, SignedOnce;
    var shares := EventShares(events, SeatRatios(xs));
    var top := MaxValue(Accumulate(shares).ratio);
    Verify.MaximumIsMicro(shares);
    LedgerTop(events, xs);
    CloseIs(claim, top);
    NearIsTop(claim, top, events, xs);
  }

  /** The seat maximum: within a millionth of the largest signed ratio, rounded to six places. */
  predicate NearSeatTop(claim: real, xs: seq<SeatExposure>) {
    exists j :: 0 <= j < |xs| && LargestAt(j, xs) && Near(claim, Round6(xs[j].ratio))
  }

  predicate LargestAt(j: nat, xs: seq<SeatExposure>)
    requires j < |xs|
  {
    forall k :: 0 <= k < |xs| ==> xs[k].ratio <= xs[j].ratio
  }

  lemma LargestSigned(xs: seq<SeatExposure>) returns (j: nat)
    requires SignedOnce(xs) && xs != []
    ensures j < |xs| && LargestAt(j, xs) && xs[j].ratio == MaxValue(SeatRatios(xs)) && SeatRatios(xs) != map[]
  {
    var ratios := SeatRatios(xs);
    RatiosAre(xs);
    hide SeatRatios;
    assert xs[0].provider in ratios;
    var k :| k in ratios && ratios[k] == MaxValue(ratios);
    assert Signs(xs, k);
    j :| 0 <= j < |xs| && xs[j].provider == k;
    assert ratios[k] == xs[j].ratio;
    forall i | 0 <= i < |xs| ensures xs[i].ratio <= xs[j].ratio {
      assert xs[i].provider in ratios && ratios[xs[i].provider] == xs[i].ratio;
      assert ratios[xs[i].provider] <= MaxValue(ratios);
    }
  }

  lemma {:induction false} SeatTopIs(r: Receipt)
    requires SignedOnce(r.exposures)
    ensures SeatMaxVerdict(r) == Valid <==> (r.maxSeat.Some? ==> NearSeatTop(r.maxSeat.value, r.exposures))
  {
    var xs := r.exposures;
    if r.maxSeat.Some? && xs != [] {
      var j := LargestSigned(xs);
      CloseIs(r.maxSeat.value, Round6(xs[j].ratio));
      hide SeatRatios, Round6, Close, Near, MaxValue;
      if NearSeatTop(r.maxSeat.value, xs) {
        var i :| 0 <= i < |xs| && LargestAt(i, xs) && Near(r.maxSeat.value, Round6(xs[i].ratio));
        assert xs[i].ratio == xs[j].ratio;
      }
    }
  }

  predicate Names(ds: seq<DomainEntry>, d: string) {
    exists j :: 0 <= j < |ds| && ds[j].domain == d
  }

  predicate Declares(events: seq<Event>, d: string) {
    exists i :: 0 <= i < |events| && events[i].domain == Some(d)
  }

  /** The claimed domains are those the events declare. */
  predicate SameDomains(ds: seq<DomainEntry>, events: seq<Event>) {
    && (forall j :: 0 <= j < |ds| ==> Declares(events, ds[j].domain))
    && (forall i :: 0 <= i < |events| && events[i].domain.Some? ==> Names(ds, events[i].domain.value))
  }

  predicate InDomain(x: string, d: string, events: seq<Event>) {
    exists i :: 0 <= i < |events| && events[i].domain == Some(d) && events[i].seat == Some(x)
  }

  predicate SeatsListed(d: string, events: seq<Event>, seats: seq<string>) {
    forall i :: 0 <= i < |events| && events[i].domain == Some(d) && events[i].seat.Some? ==>
                  events[i].seat.value in seats
  }

  /** One claimed domain: its total within a millionth and, where seats are listed, exactly its seats. */
  predicate EntryAgrees(d: DomainEntry, events: seq<Event>, xs: seq<SeatExposure>) {
    && Near(d.ratio, Total(d.domain, events, xs))
    && (d.seats.Some? ==>
          && (forall i :: 0 <= i < |d.seats.value| ==> InDomain(d.seats.value[i], d.domain, events))
          && SeatsListed(d.domain, events, d.seats.value))
  }

  predicate EntriesAgree(ds: seq<DomainEntry>, events: seq<Event>, xs: seq<SeatExposure>) {
    forall i :: 0 <= i < |ds| ==> EntryAgrees(ds[i], events, xs)
  }

  predicate HostsAgree(p: Platform, events: seq<Event>) {
    forall i :: 0 <= i < |events| && events[i].host.Some? && events[i].domain.Some? ==>
                  events[i].domain.value == p.trustDomain(events[i].host.value)
  }

  predicate DomainsAgree(r: Receipt, ds: seq<DomainEntry>) {
    && AllAccounted(r.events, r.exposures)
    && SameDomains(ds, r.events) && EntriesAgree(ds, r.events, r.exposures)
    && (r.noDomainHasAll.Some? ==> r.noDomainHasAll.value != Verify.AllInOneDomain(r.events))
    && (r.maxDomain.Some? ==> NearTop(r.maxDomain.value, r.events, r.exposures))
    && NearTop(r.maxProvider, r.events, r.exposures)
  }

  /** `_check_trust_domain_consistency`: everything recomputed from events and signed ratios agrees. */
  predicate Agrees(p: Platform, r: Receipt) {
    && HostsAgree(p, r.events)
    && (r.domains.Some? ==> DomainsAgree(r, r.domains.value))
    && (r.maxSeat.Some? ==> NearSeatTop(r.maxSeat.value, r.exposures))
  }

  lemma NamesAre(ds: seq<DomainEntry>)
    ensures forall d :: d in SetOf(DomainNames(ds)) <==> Names(ds, d)
  {
    forall d ensures d in SetOf(DomainNames(ds)) <==> Names(ds, d) {
      if Names(ds, d) {
        var j :| 0 <= j < |ds| && ds[j].domain == d;
        assert DomainNames(ds)[j] == d;
      }
    }
  }

  lemma DeclaredAre(events: seq<Event>)
    ensures forall d :: d in Verify.EventDomains(events) <==> Declares(events, d)
  {
    forall d ensures d in Verify.EventDomains(events) <==> Declares(events, d) {
      if Declares(events, d) {
        var i :| 0 <= i < |events| && events[i].domain == Some(d);
        assert events[i].domain.value == d;
      }
    }
  }

  lemma SameDomainsIs(ds: seq<DomainEntry>, events: seq<Event>)
    ensures SameDomains(ds, events) <==> SetOf(DomainNames(ds)) == Verify.EventDomains(events)
  {
    NamesAre(ds);
    DeclaredAre(events);
    hide SetOf, DomainNames, Verify.EventDomains;
    if SetOf(DomainNames(ds)) == Verify.EventDomains(events) {
      assert forall j :: 0 <= j < |ds| ==> Names(ds, ds[j].domain);
      assert forall i :: 0 <= i < |events| && events[i].domain.Some? ==> Declares(events, events[i].domain.value);
    }
  }

  lemma SeatSetIs(seats: seq<string>, d: string, events: seq<Event>)
    ensures SetOf(seats) == Verify.SeatsOfDomain(events, d) <==>
            (forall i :: 0 <= i < |seats| ==> InDomain(seats[i], d, events)) && SeatsListed(d, events, seats)
  {
    forall x ensures x in Verify.SeatsOfDomain(events, d) <==> InDomain(x, d, events) {
      if InDomain(x, d, events) {
        var i :| 0 <= i < |events| && events[i].domain == Some(d) && events[i].seat == Some(x);
        assert events[i].seat.value == x;
      }
    }
    assert forall x :: x in SetOf(seats) <==> x in seats;
    if SetOf(seats) == Verify.SeatsOfDomain(events, d) {
      forall i | 0 <= i < |seats| ensures InDomain(seats[i], d, events) {
        assert seats[i] in SetOf(seats);
      }
      forall i | 0 <= i < |events| && events[i].domain == Some(d) && events[i].seat.Some?
        ensures events[i].seat.value in seats
      {
        assert InDomain(events[i].seat.value, d, events);
      }
    }
  }

  lemma {:induction false} EntryAgreesIs(d: DomainEntry, events: seq<Event>, xs: seq<SeatExposure>)
    requires SignedOnce(xs) && AllAccountable(events, SeatRatios(xs))
    ensures var t := Accumulate(EventShares(events, SeatRatios(xs)));
            EntryRatioAgrees(d, t) && EntrySeatsAgree(d, t) <==> EntryAgrees(d, events, xs)
  {
    hide Accumulate, SeatRatios, SignedOnce, Total, Close, Near, RatioAt, SetOf;
    var shares := EventShares(events, SeatRatios(xs));
    TotalIs(d.domain, events, xs);
    CloseIs(d.ratio, Total(d.domain, events, xs));
    AccumulatePartitions(shares);
    Verify.SharesSeats(events, SeatRatios(xs), d.domain);
    if d.seats.Some? {
      SeatSetIs(d.seats.value, d.domain, events);
    }
  }

  lemma EntriesAgreeIs(ds: seq<DomainEntry>, events: seq<Event>, xs: seq<SeatExposure>)
    requires SignedOnce(xs) && AllAccountable(events, SeatRatios(xs))
    ensures var t := Accumulate(EventShares(events, SeatRatios(xs)));
            EntriesAgree(ds, events, xs) <==>
            (forall i :: 0 <= i < |ds| ==> EntryRatioAgrees(ds[i], t)) &&
            (forall i :: 0 <= i < |ds| ==> EntrySeatsAgree(ds[i], t))
  {
    var t := Accumulate(EventShares(events, SeatRatios(xs)));
    forall i | 0 <= i < |ds|
      ensures EntryRatioAgrees(ds[i], t) && EntrySeatsAgree(ds[i], t) <==> EntryAgrees(ds[i], events, xs)
    {
      EntryAgreesIs(ds[i], events, xs);
    }
    hide EntryRatioAgrees, EntrySeatsAgree, EntryAgrees, Accumulate;
  }

  lemma {:induction false} TotalsAre(r: Receipt, ds: seq<DomainEntry>)
    requires SignedOnce(r.exposures) && Unique(DeclaredSeats(r.events))
    requires AllAccountable(r.events, SeatRatios(r.exposures))
    ensures TotalsVerdict(r, ds, EventShares(r.events, SeatRatios(r.exposures))) == Valid <==>
            DomainsAgree(r, ds) && (r.maxSeat.Some? ==> NearSeatTop(r.maxSeat.value, r.exposures))
  {
    hide Accumulate, SeatRatios, SignedOnce, Total, Close, EntryRatioAgrees, EntrySeatsAgree, EntriesAgree, SameDomains,
      NearTop, NearSeatTop, SeatMaxVerdict, Round6, MaxValue, SetOf, SomeDomainHasAll, AllSeats, Verify.EventDomains,
      EventShares, Verify.AllInOneDomain, AllAccounted, AllAccountable;
    var events, xs := r.events, r.exposures;
    var shares := EventShares(events, SeatRatios(xs));
    AccumulatePartitions(shares);
    Verify.SharesDomains(events, SeatRatios(xs));
    SameDomainsIs(ds, events);
    EntriesAgreeIs(ds, events, xs);
    Verify.FlagMeaning(r, shares, SeatRatios(xs));
    if r.maxDomain.Some? {
      TopIs(r.maxDomain.value, events, xs);
    }
    TopIs(r.maxProvider, events, xs);
    SeatTopIs(r);
    AccountedIs(events, xs);
  }

  lemma {:induction false} StepsAre(p: Platform, r: Receipt)
    ensures DomainVerdict(p, r) == Valid <==>
            HostsAgree(p, r.events) &&
            if r.domains.None? then SeatMaxVerdict(r) == Valid
            else
              AllAccountable(r.events, SeatRatios(r.exposures)) &&
              TotalsVerdict(r, r.domains.value, EventShares(r.events, SeatRatios(r.exposures))) == Valid
  {
    assert HostsAgree(p, r.events) <==> forall i :: 0 <= i < |r.events| ==> HostAgrees(p, r.events[i]);
    hide HostsAgree, HostAgrees, SeatMaxVerdict, SeatRatios, AllAccountable, TotalsVerdict, EventShares;
  }

  lemma {:induction false} FiguresAre(p: Platform, r: Receipt)
    requires NothingTwice(r)
    ensures DomainVerdict(p, r) == Valid <==> Agrees(p, r)
  {
    NothingTwiceIs(r);
    SeatTopIs(r);
    StepsAre(p, r);
    AccountedIs(r.events, r.exposures);
    if r.domains.Some? && AllAccountable(r.events, SeatRatios(r.exposures)) {
      TotalsAre(r, r.domains.value);
    }
    hide HostsAgree, DomainVerdict, TotalsVerdict, SeatMaxVerdict, SeatRatios, NearSeatTop, AllAccountable,
      AllAccounted, SameDomains, EntriesAgree, NearTop, Verify.AllInOneDomain, Unique;
  }

  // ---------- the theorem ----------

  /** The recorded hash is that of the other members, without hash and signature. */
  predicate Sealed(p: Platform, m: Dict) {
    TextAt(m, "receipt_hash")
    == Some(p.sha256(CanonicalBytes(Obj(map k | k in m && k != "receipt_hash" && k != "signature" :: m[k]))))
  }

  /** An Ed25519 signature object whose base64 value is a signature of the recorded hash under the given key. */
  predicate Signed(p: Platform, pub: Option<PublicKey>, m: Dict) {
    && pub.Some? && TextAt(m, "receipt_hash").Some?
    && "signature" in m && m["signature"].Obj?
    && var signature := m["signature"].m;
    && "alg" in signature && signature["alg"] == Str("Ed25519")
    && "value" in signature && signature["value"].Str? && signature["value"].s != ""
    && var sig := p.unbase64(signature["value"].s);
    && sig.Some? && p.verifies(pub.value, sig.value, Utf8.Encode(m["receipt_hash"].s))
  }

  lemma SealedIs(p: Platform, m: Dict)
    requires WellTyped(m)
    ensures ReceiptHash(p, m) == View(m).hash <==> Sealed(p, m)
  {
    assert BodyOf(m) == map k | k in m && k != "receipt_hash" && k != "signature" :: m[k];
    hide CanonicalBytes;
  }

  lemma SignedIsVerdict(p: Platform, pub: Option<PublicKey>, m: Dict)
    requires WellTyped(m)
    ensures View(m).signature.Some? && SignatureVerdict(p, pub, View(m)) == Valid <==> Signed(p, pub, m)
  {
    hide Utf8.Encode;
  }

  /**
    A receipt is accepted exactly when it is well typed, well formed, its figures agree, its hash is that
    of its body, and its signature is one of that hash under the given key.
   */
  lemma AcceptedIff(p: Platform, pub: Option<PublicKey>, m: Dict)
    ensures Accepted(p, pub, m) <==>
            WellTyped(m) && WellFormed(View(m)) && Agrees(p, View(m)) && Sealed(p, m) && Signed(p, pub, m)
  {
    hide WellTyped, WellFormed, Agrees, View, Sealed, Signed, HasRequired, Read, ShapeVerdict, DomainVerdict,
      ReceiptHash, SignatureVerdict;
    Readable(m);
    Verify.AcceptedMeans(p, pub, m);
    if WellTyped(m) {
      var r := View(m);
      ShapeIs(r);
      WellFormedParts(r);
      if WellFormed(r) {
        FiguresAre(p, r);
        SealedIs(p, m);
        SignedIsVerdict(p, pub, m);
      }
    }
  }

  lemma {:induction false} WellFormedParts(r: Receipt)
    ensures WellFormed(r) ==> NothingTwice(r) && r.signature.Some?
  {
  }
}
