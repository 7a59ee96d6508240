/**
  Exposure per trust domain.  A share is one seat's ratio credited to one domain; the ledger
  adds up shares in order and rounds after every step, as both the producer and the verifier do.
 */
module Ledger {
  import opened Text
  import opened Ratios

  datatype Share = Share(domain: string, seat: string, ratio: real)

  datatype Totals = Totals(ratio: map<string, real>, seats: map<string, seq<string>>)

  const EMPTY := Totals(map[], map[])

  function RatioAt(t: Totals, domain: string): real {
    if domain in t.ratio then t.ratio[domain] else 0.0
  }

  function SeatsAt(t: Totals, domain: string): seq<string> {
    if domain in t.seats then t.seats[domain] else []
  }

  function Credit(t: Totals, s: Share): Totals {
    Totals(t.ratio[s.domain := Round6(RatioAt(t, s.domain) + s.ratio)],
           t.seats[s.domain := SeatsAt(t, s.domain) + [s.seat]])
  }

  function Accumulate(shares: seq<Share>): Totals {
    if shares == [] then EMPTY else Credit(Accumulate(shares[..|shares| - 1]), shares[|shares| - 1])
  }

  lemma AccumulateNext(shares: seq<Share>, s: Share)
    ensures Accumulate(shares + [s]) == Credit(Accumulate(shares), s)
  {
    var all := shares + [s];
    assert all[..|all| - 1] == shares && all[|all| - 1] == s;
  }

  // ---------- what the ledger should say ----------

  /** How many shares a domain holds. */
  function CountIn(d: string, shares: seq<Share>): nat {
    if shares == [] then 0
    else CountIn(d, shares[..|shares| - 1]) + if shares[|shares| - 1].domain == d then 1 else 0
  }

  /** The exact sum of a domain's ratios. */
  function SumIn(d: string, shares: seq<Share>): real {
    if shares == [] then 0.0
    else SumIn(d, shares[..|shares| - 1]) + if shares[|shares| - 1].domain == d then shares[|shares| - 1].ratio else 0.0
  }

  /** A domain's seats, in order. */
  function SeatsIn(d: string, shares: seq<Share>): seq<string> {
    if shares == [] then []
    else
      var s := shares[|shares| - 1];
      SeatsIn(d, shares[..|shares| - 1]) + if s.domain == d then [s.seat] else []
  }

  function Domains(shares: seq<Share>): set<string> {
    set i | 0 <= i < |shares| :: shares[i].domain
  }

  lemma DomainsExtend(shares: seq<Share>)
    requires shares != []
    ensures Domains(shares) == Domains(shares[..|shares| - 1]) + {shares[|shares| - 1].domain}
  {
    var p := shares[..|shares| - 1];
    forall d | d in Domains(p) ensures d in Domains(shares) {
      var i :| 0 <= i < |p| && p[i].domain == d;
      assert shares[i].domain == d;
    }
    forall d | d in Domains(shares) && d != shares[|shares| - 1].domain ensures d in Domains(p) {
      var i :| 0 <= i < |shares| && shares[i].domain == d;
      assert p[i].domain == d;
    }
    assert shares[|shares| - 1].domain in Domains(shares);
  }

  /** The ledger has exactly the shares' domains, and lists exactly each domain's seats. */
  lemma {:induction false} AccumulatePartitions(shares: seq<Share>)
    ensures Accumulate(shares).ratio.Keys == Domains(shares)
    ensures Accumulate(shares).seats.Keys == Domains(shares)
    ensures forall d :: SeatsAt(Accumulate(shares), d) == SeatsIn(d, shares)
  {
    if shares != [] {
      AccumulatePartitions(shares[..|shares| - 1]);
      DomainsExtend(shares);
    }
  }

  /** Rounding at every step puts a total at most half a millionth per share off the exact sum. */
  lemma {:induction false} AccumulateBound(d: string, shares: seq<Share>)
    ensures Abs(RatioAt(Accumulate(shares), d) - SumIn(d, shares)) * MILLION <= CountIn(d, shares) as real / 2.0
  {
    if shares != [] {
      AccumulateBound(d, shares[..|shares| - 1]);
    }
  }

  predicate AllMicro(shares: seq<Share>) {
    forall i :: 0 <= i < |shares| ==> IsMicro(shares[i].ratio)
  }

  /** On ratios that are already rounded the ledger is exact. */
  lemma {:induction false} AccumulateExact(d: string, shares: seq<Share>)
    requires AllMicro(shares)
    ensures RatioAt(Accumulate(shares), d) == SumIn(d, shares)
    ensures IsMicro(SumIn(d, shares))
  {
    if shares == [] {
      assert 0.0 * MILLION == 0.0;
    } else {
      var p, s := shares[..|shares| - 1], shares[|shares| - 1];
      AccumulateExact(d, p);
      if s.domain == d {
        MicroSum(SumIn(d, p), s.ratio);
        RoundOfMicro(SumIn(d, p) + s.ratio);
      }
    }
  }

  /** Every total is a rounded number. */
  lemma {:induction false} TotalsAreMicro(shares: seq<Share>)
    ensures forall d :: d in Accumulate(shares).ratio ==> IsMicro(Accumulate(shares).ratio[d])
  {
    if shares != [] {
      var p, s := shares[..|shares| - 1], shares[|shares| - 1];
      TotalsAreMicro(p);
      RoundIsMicro(RatioAt(Accumulate(p), s.domain) + s.ratio);
    }
  }

  predicate NonNegative(shares: seq<Share>) {
    forall i :: 0 <= i < |shares| ==> shares[i].ratio >= 0.0
  }

  /** The sum of a domain's ratios is at least each of them. */
  lemma {:induction false} SumDominates(d: string, shares: seq<Share>)
    requires NonNegative(shares)
    ensures SumIn(d, shares) >= 0.0
    ensures forall i :: 0 <= i < |shares| && shares[i].domain == d ==> shares[i].ratio <= SumIn(d, shares)
  {
    if shares != [] {
      SumDominates(d, shares[..|shares| - 1]);
    }
  }

  lemma {:induction false} SeatsInMembers(d: string, shares: seq<Share>)
    ensures |SeatsIn(d, shares)| == CountIn(d, shares)
    ensures forall x :: x in SeatsIn(d, shares) <==>
                        exists i :: 0 <= i < |shares| && shares[i].domain == d && shares[i].seat == x
  {
    if shares != [] {
      var p, s := shares[..|shares| - 1], shares[|shares| - 1];
      SeatsInMembers(d, p);
      forall x ensures x in SeatsIn(d, shares) <==>
                       exists i :: 0 <= i < |shares| && shares[i].domain == d && shares[i].seat == x
      {
        if x in SeatsIn(d, p) {
          var i :| 0 <= i < |p| && p[i].domain == d && p[i].seat == x;
          assert shares[i] == p[i];
        }
        if i :| 0 <= i < |shares| && shares[i].domain == d && shares[i].seat == x {
          assert i < |p| ==> p[i] == shares[i];
        }
      }
    }
  }

  // ---------- maxima and the all-fragments flag ----------

  /** The values of a dictionary, one per key. */
  function ValuesOf(m: map<string, real>): (xs: seq<real>)
    ensures |xs| == |SortedKeys(ByCodePoint, m.Keys)|
    ensures forall i :: 0 <= i < |xs| ==> xs[i] == m[SortedKeys(ByCodePoint, m.Keys)[i]]
  {
    var ks := SortedKeys(ByCodePoint, m.Keys);
    seq(|ks|, i requires 0 <= i < |ks| => m[ks[i]])
  }

  /** `max(m.values(), default=0.0)`. */
  function MaxValue(m: map<string, real>): (x: real)
    ensures m == map[] ==> x == 0.0
    ensures m != map[] ==> exists k :: k in m && m[k] == x
    ensures forall k :: k in m ==> m[k] <= x
  {
    var ks, xs := SortedKeys(ByCodePoint, m.Keys), ValuesOf(m);
    assert forall k :: k in m ==> k in ks;
    assert forall k :: k in m ==> exists i :: 0 <= i < |ks| && ks[i] == k;
    assert m != map[] ==> xs != [] by {
      if m != map[] { var k :| k in m; assert k in ks; }
    }
    assert xs != [] ==> exists i :: 0 <= i < |xs| && xs[i] == MaxOf(xs);
    MaxOf(xs)
  }

  function SetOf(xs: seq<string>): set<string> {
    set i | 0 <= i < |xs| :: xs[i]
  }

  /** Some domain's seat set is the whole seat set. */
  predicate SomeDomainHasAll(t: Totals, all: set<string>) {
    exists d :: d in t.seats && SetOf(t.seats[d]) == all
  }

  predicate DistinctSeats(shares: seq<Share>) {
    forall i, j :: 0 <= i < j < |shares| ==> shares[i].seat != shares[j].seat
  }

  function AllSeats(shares: seq<Share>): set<string> {
    set i | 0 <= i < |shares| :: shares[i].seat
  }

  /** With distinct seats, a domain has every seat exactly when all shares are in that domain. */
  lemma {:induction false} SomeDomainHasAllMeaning(shares: seq<Share>)
    requires DistinctSeats(shares)
    ensures SomeDomainHasAll(Accumulate(shares), AllSeats(shares)) <==>
            shares != [] && forall i :: 0 <= i < |shares| ==> shares[i].domain == shares[0].domain
  {
    var t := Accumulate(shares);
    AccumulatePartitions(shares);
    if d :| d in t.seats && SetOf(t.seats[d]) == AllSeats(shares) {
      SeatsInMembers(d, shares);
      assert t.seats[d] == SeatsIn(d, shares);
      forall i | 0 <= i < |shares| ensures shares[i].domain == d {
        assert shares[i].seat in SetOf(t.seats[d]);
        assert shares[i].seat in SeatsIn(d, shares);
      }
    }
    if shares != [] && forall i :: 0 <= i < |shares| ==> shares[i].domain == shares[0].domain {
      var d := shares[0].domain;
      assert d in Domains(shares);
      SeatsInMembers(d, shares);
      var xs := t.seats[d];
      assert xs == SeatsIn(d, shares);
      forall x ensures x in SetOf(xs) <==> x in AllSeats(shares) {
        if x in AllSeats(shares) {
          assert x in SeatsIn(d, shares);
        }
        if x in SetOf(xs) {
          assert x in SeatsIn(d, shares);
        }
      }
      assert SetOf(xs) == AllSeats(shares);
    }
  }
}
