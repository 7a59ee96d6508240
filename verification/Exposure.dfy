/** What the per-domain accounting conserves, and how far rounding can take it. */
module Exposure {
  import opened Text
  import opened Ratios
  import opened Ledger
  import opened Platform
  import opened Receipts
  import opened Producer
  import Agreement

  /** Characters sent to the seats of domain `d`. */
  function CharsIn(p: Platform, inputs: Inputs, seats: seq<Seat>, d: string): nat
    requires SeatsFit(inputs, seats)
  {
    if seats == [] then 0
    else
      var s := seats[|seats| - 1];
      CharsIn(p, inputs, seats[..|seats| - 1], d)
      + if p.trustDomain(s.host) == d then |inputs.payloads[s.fid]| else 0
  }

  lemma {:induction false} SumTracksChars(p: Platform, inputs: Inputs, seats: seq<Seat>, d: string)
    requires SeatsFit(inputs, seats) && inputs.original != ""
    ensures var shares := SeatShares(p, inputs, seats);
            Abs(SumIn(d, shares) - CharsIn(p, inputs, seats, d) as real / |inputs.original| as real) * MILLION
            <= CountIn(d, shares) as real / 2.0
  {
    if seats == [] {
      assert 0 as real / |inputs.original| as real == 0.0;
    } else {
      var init, s := seats[..|seats| - 1], seats[|seats| - 1];
      SumTracksChars(p, inputs, init, d);
      var shares := SeatShares(p, inputs, seats);
      var share := shares[|shares| - 1];
      assert shares[..|shares| - 1] == SeatShares(p, inputs, init);
      if share.domain == d {
        OneMoreError(SumIn(d, SeatShares(p, inputs, init)), CharsIn(p, inputs, init, d),
                     |inputs.payloads[s.fid]|, |inputs.original|, CountIn(d, SeatShares(p, inputs, init)));
      }
    }
  }

  /** One more rounded ratio adds at most half a millionth of error. */
  lemma OneMoreError(sum: real, chars: nat, more: nat, total: nat, k: nat)
    requires total > 0 && Abs(sum - chars as real / total as real) * MILLION <= k as real / 2.0
    ensures Abs(sum + SeatRatio(more, total) - (chars + more) as real / total as real) * MILLION
            <= (k + 1) as real / 2.0
  {
    var n := total as real;
    assert (chars + more) as real / n == chars as real / n + more as real / n;
  }

  /**
    One domain's figure: exactly the sum of its seats' signed ratios, and within half a
    millionth per seat of the characters it received over the original's length.
   */
  lemma DomainFigure(p: Platform, inputs: Inputs, seats: seq<Seat>, d: string)
    requires SeatsFit(inputs, seats) && inputs.original != ""
    ensures var shares := SeatShares(p, inputs, seats);
            var t := ViewOf(shares).totals;
            RatioAt(t, d) == SumIn(d, shares) && SeatsAt(t, d) == SeatsIn(d, shares) &&
            Abs(RatioAt(t, d) - CharsIn(p, inputs, seats, d) as real / |inputs.original| as real) * MILLION
            <= |SeatsAt(t, d)| as real / 2.0
  {
    hide CharsIn, Accumulate, SumIn, CountIn, SeatsIn, RatioAt, SeatsAt, Abs, MaxValue, MaxOf, SomeDomainHasAll, Round6;
    var shares := SeatShares(p, inputs, seats);
    Agreement.RatiosAreMicro(p, inputs, seats);
    AccumulateExact(d, shares);
    AccumulatePartitions(shares);
    SeatsInMembers(d, shares);
    SumTracksChars(p, inputs, seats, d);
  }

  /** The seat lists of the domains partition the seats: every seat is listed by its own domain only. */
  lemma SeatsPartitioned(p: Platform, inputs: Inputs, seats: seq<Seat>, i: nat, d: string)
    requires SeatsFit(inputs, seats) && i < |seats|
    ensures var t := ViewOf(SeatShares(p, inputs, seats)).totals;
            seats[i].fid in SeatsAt(t, d) <==> d == p.trustDomain(seats[i].host)
  {
    var shares := SeatShares(p, inputs, seats);
    AccumulatePartitions(shares);
    SeatsInMembers(d, shares);
    if seats[i].fid in SeatsIn(d, shares) {
      var j :| 0 <= j < |shares| && shares[j].domain == d && shares[j].seat == seats[i].fid;
      assert j == i;
    }
    if d == p.trustDomain(seats[i].host) {
      assert shares[i].domain == d && shares[i].seat == seats[i].fid;
    }
  }

  // ---------- the domains' figures add up ----------

  function SumOver(ds: seq<string>, shares: seq<Share>): real {
    if ds == [] then 0.0 else SumIn(ds[0], shares) + SumOver(ds[1..], shares)
  }

  function TotalRatio(shares: seq<Share>): real {
    if shares == [] then 0.0 else TotalRatio(shares[..|shares| - 1]) + shares[|shares| - 1].ratio
  }

  lemma {:induction false} SumOverNext(ds: seq<string>, shares: seq<Share>)
    requires shares != [] && Unique(ds)
    ensures var s := shares[|shares| - 1];
            SumOver(ds, shares) == SumOver(ds, shares[..|shares| - 1]) + if s.domain in ds then s.ratio else 0.0
  {
    if ds != [] {
      var rest := ds[1..];
      assert ds == [ds[0]] + rest;
      assert Unique(rest) && ds[0] !in rest by {
        forall i, j | 0 <= i < j < |rest| ensures rest[i] != rest[j] {
          assert ds[i + 1] != ds[j + 1];
        }
      }
      SumOverNext(rest, shares);
    }
  }

  lemma {:induction false} SumsAddUp(ds: seq<string>, shares: seq<Share>)
    requires Unique(ds) && forall i :: 0 <= i < |shares| ==> shares[i].domain in ds
    ensures SumOver(ds, shares) == TotalRatio(shares)
  {
    if shares == [] {
      SumOverNothing(ds);
    } else {
      SumOverNext(ds, shares);
      SumsAddUp(ds, shares[..|shares| - 1]);
    }
  }

  lemma {:induction false} SumOverNothing(ds: seq<string>)
    ensures SumOver(ds, []) == 0.0
  {
    if ds != [] {
      SumOverNothing(ds[1..]);
    }
  }

  function TotalOf(t: Totals, ds: seq<string>): real {
    if ds == [] then 0.0 else RatioAt(t, ds[0]) + TotalOf(t, ds[1..])
  }

  lemma {:induction false} TotalOfIsSum(shares: seq<Share>, ds: seq<string>)
    requires AllMicro(shares)
    ensures TotalOf(Accumulate(shares), ds) == SumOver(ds, shares)
  {
    if ds != [] {
      AccumulateExact(ds[0], shares);
      TotalOfIsSum(shares, ds[1..]);
    }
  }

  /** The figures of all domains add up to the ratios of all seats: nothing is lost or counted twice. */
  lemma DomainsConserve(p: Platform, inputs: Inputs, seats: seq<Seat>)
    requires SeatsFit(inputs, seats)
    ensures var shares := SeatShares(p, inputs, seats);
            var t := ViewOf(shares).totals;
            TotalOf(t, SortedKeys(ByCodePoint, t.ratio.Keys)) == TotalRatio(shares)
  {
    var shares := SeatShares(p, inputs, seats);
    var t := Accumulate(shares);
    var ds := SortedKeys(ByCodePoint, t.ratio.Keys);
    Agreement.RatiosAreMicro(p, inputs, seats);
    AccumulatePartitions(shares);
    Agreement.UniqueDomains(t);
    assert Unique(ds) by {
      assert DomainNames(Agreement.SeenDomains(t)) == ds;
    }
    forall i | 0 <= i < |shares| ensures shares[i].domain in ds {
      assert shares[i].domain in Domains(shares);
    }
    SumsAddUp(ds, shares);
    TotalOfIsSum(shares, ds);
  }

  /** The domain maximum is at least the seat maximum: a vendor is never understated by its seats. */
  lemma DomainMaxDominates(p: Platform, inputs: Inputs, seats: seq<Seat>)
    requires SeatsFit(inputs, seats)
    ensures var v := ViewOf(SeatShares(p, inputs, seats)); v.maxSeat <= v.maxDomain
  {
    var shares := SeatShares(p, inputs, seats);
    var t := Accumulate(shares);
    Agreement.RatiosAreMicro(p, inputs, seats);
    RatiosNonNegative(p, inputs, seats);
    AccumulatePartitions(shares);
    var x, m := MaxOf(ShareRatios(shares)), MaxValue(t.ratio);
    if seats != [] {
      var i :| 0 <= i < |shares| && ShareRatios(shares)[i] == x;
      var d := shares[i].domain;
      assert d in Domains(shares);
      AccumulateExact(d, shares);
      SumDominates(d, shares);
      TotalsAreMicro(shares);
      RoundOfMicro(x);
      RoundOfMicro(m);
    } else {
      assert t.ratio == map[];
    }
  }

  lemma RatiosNonNegative(p: Platform, inputs: Inputs, seats: seq<Seat>)
    requires SeatsFit(inputs, seats)
    ensures NonNegative(SeatShares(p, inputs, seats))
  {
    var shares := SeatShares(p, inputs, seats);
    forall i | 0 <= i < |shares| ensures shares[i].ratio >= 0.0 {
      SeatRatioNonNegative(|inputs.payloads[seats[i].fid]|, |inputs.original|);
    }
  }

  lemma SeatRatioNonNegative(chars: nat, total: nat)
    ensures SeatRatio(chars, total) >= 0.0
  {
    if total != 0 {
      var x := chars as real / total as real;
      assert x >= 0.0;
      assert x * MILLION >= 0.0;
      assert RoundHalfEven(x * MILLION) >= 0;
    }
  }

  /** The signed flag is false exactly when there are seats and all share one trust domain. */
  lemma FlagMeaning(p: Platform, inputs: Inputs, seats: seq<Seat>)
    requires SeatsFit(inputs, seats)
    ensures ViewOf(SeatShares(p, inputs, seats)).noDomainHasAll <==>
            !(seats != [] &&
              forall i :: 0 <= i < |seats| ==> p.trustDomain(seats[i].host) == p.trustDomain(seats[0].host))
  {
    var shares := SeatShares(p, inputs, seats);
    forall i, j | 0 <= i < j < |shares| ensures shares[i].seat != shares[j].seat {
      assert shares[i].seat == seats[i].fid && shares[j].seat == seats[j].fid;
    }
    SomeDomainHasAllMeaning(shares);
    assert forall i :: 0 <= i < |seats| ==> shares[i].domain == p.trustDomain(seats[i].host);
  }
}
