/** Run identifiers: 26 Crockford digits for 48 bits of time and 80 random bits. */
module Ulids {
  import opened Text
  import Receipts

  const CROCKFORD: string := "0123456789ABCDEFGHJKMNPQRSTVWXYZ"
  const TIME_RANGE: nat := 0x1_0000_0000_0000
  const RANDOM_RANGE: nat := 0x1_0000_0000_0000_0000_0000

  function Pow32(n: nat): (x: nat)
    ensures x > 0
  {
    if n == 0 then 1 else 32 * Pow32(n - 1)
  }

  /** `_CROCKFORD[(val >> (5 * i)) & 31]` */
  function DigitAt(val: nat, i: nat): char {
    CROCKFORD[val / Pow32(i) % 32]
  }

  /** The digits of `val` from place `n - 1` down to place 0. */
  function Encode(val: nat, n: nat): (s: string)
    ensures |s| == n && forall j :: 0 <= j < n ==> s[j] == DigitAt(val, n - 1 - j)
  {
    seq(n, j requires 0 <= j < n => DigitAt(val, n - 1 - j))
  }

  /** `new_ulid`: the clock in milliseconds, cut to 48 bits, above the random part. */
  function NewUlid(millis: nat, random: nat): string
    requires random < RANDOM_RANGE
  {
    Encode(millis % TIME_RANGE * RANDOM_RANGE + random, 26)
  }

  // ---------- decoding ----------

  function DigitValue(c: char): nat {
    var n := c as int;
    if '0' <= c <= '9' then n - 48
    else if 'A' <= c <= 'H' then n - 55
    else if c == 'J' || c == 'K' then n - 56
    else if c == 'M' || c == 'N' then n - 57
    else if 'P' <= c <= 'T' then n - 58
    else if 'V' <= c <= 'Z' then n - 59
    else 0
  }

  function Decode(s: string): nat {
    if s == "" then 0 else Decode(s[..|s| - 1]) * 32 + DigitValue(s[|s| - 1])
  }

  lemma DigitLow(d: nat)
    requires d < 16
    ensures DigitValue(CROCKFORD[d]) == d && Receipts.IsCrockford(CROCKFORD[d])
    ensures CROCKFORD[d] as int == if d < 10 then 48 + d else 55 + d
  {
  }

  lemma DigitHigh(d: nat)
    requires 16 <= d < 32
    ensures DigitValue(CROCKFORD[d]) == d && Receipts.IsCrockford(CROCKFORD[d])
    ensures CROCKFORD[d] as int == (if d < 18 then 55 + d else if d < 20 then 56 + d else if d < 22 then 57 + d
                                    else if d < 27 then 58 + d else 59 + d) as int
  {
  }

  lemma DigitFacts(d: nat)
    requires d < 32
    ensures DigitValue(CROCKFORD[d]) == d && Receipts.IsCrockford(CROCKFORD[d])
  {
    if d < 16 { DigitLow(d); } else { DigitHigh(d); }
  }

  lemma DigitsAscend(d: nat, e: nat)
    requires d < e < 32
    ensures CROCKFORD[d] < CROCKFORD[e]
  {
    if d < 16 { DigitLow(d); } else { DigitHigh(d); }
    if e < 16 { DigitLow(e); } else { DigitHigh(e); }
  }

  lemma DivideTwice(v: nat, m: nat)
    requires m > 0
    ensures v / (32 * m) == v / 32 / m
  {
    var a := v / 32;
    var q, r := a / m, a % m;
    assert a == q * m + r;
    assert v == 32 * a + v % 32;
    var rem := 32 * r + v % 32;
    assert v == 32 * (q * m + r) + v % 32;
    assert v == q * (32 * m) + rem by {
      assert 32 * (q * m) == q * (32 * m);
    }
    assert rem < 32 * m by {
      assert r <= m - 1;
    }
    QuotientIs(v, 32 * m, q, rem);
  }

  lemma MulGap(a: nat, b: nat, d: nat)
    requires a < b
    ensures a * d + d <= b * d
  {
    assert b * d == a * d + (b - a) * d;
    assert (b - a) * d >= d by {
      assert (b - a) * d == d + (b - a - 1) * d;
    }
  }

  lemma QuotientIs(v: nat, d: nat, q: nat, r: nat)
    requires d > 0 && v == q * d + r && r < d
    ensures v / d == q
  {
    var q', r' := v / d, v % d;
    assert v == q' * d + r';
    if q' < q {
      MulGap(q', q, d);
    } else if q' > q {
      MulGap(q, q', d);
    }
  }

  /** The last digit apart: the rest is the encoding of the quotient. */
  lemma EncodeSplit(val: nat, n: nat)
    requires n > 0
    ensures Encode(val, n) == Encode(val / 32, n - 1) + [CROCKFORD[val % 32]]
  {
    var rest := Encode(val / 32, n - 1);
    forall j | 0 <= j < n - 1 ensures DigitAt(val, n - 1 - j) == rest[j] {
      DivideTwice(val, Pow32(n - 2 - j));
    }
    assert DigitAt(val, 0) == CROCKFORD[val % 32];
  }

  /** Decoding gives the value back whenever it fits. */
  lemma {:induction false} DecodeEncode(val: nat, n: nat)
    requires val < Pow32(n)
    ensures Decode(Encode(val, n)) == val
  {
    var s := Encode(val, n);
    if n > 0 {
      EncodeSplit(val, n);
      assert s[..n - 1] == Encode(val / 32, n - 1);
      DecodeEncode(val / 32, n - 1);
      DigitFacts(val % 32);
    }
  }

  /** Every encoding consists of the verifier's digits. */
  lemma EncodedDigits(val: nat, n: nat)
    ensures forall j :: 0 <= j < n ==> Receipts.IsCrockford(Encode(val, n)[j])
  {
    forall j | 0 <= j < n ensures Receipts.IsCrockford(Encode(val, n)[j]) {
      DigitFacts(val / Pow32(n - 1 - j) % 32);
    }
  }

  lemma {:induction false} LexLastDigit(a: seq<int>, x: int, b: seq<int>, y: int)
    requires |a| == |b|
    ensures LexLess(a + [x], b + [y]) <==> LexLess(a, b) || (a == b && x < y)
  {
    if a == [] {
      assert a + [x] == [x] && b + [y] == [y];
    } else {
      assert (a + [x])[1..] == a[1..] + [x] && (b + [y])[1..] == b[1..] + [y];
      LexLastDigit(a[1..], x, b[1..], y);
      assert a == [a[0]] + a[1..] && b == [b[0]] + b[1..];
    }
  }

  lemma {:induction false} UnitsAppend(s: string, c: char)
    ensures Units(ByCodePoint, s + [c]) == Units(ByCodePoint, s) + [c as int]
    ensures |Units(ByCodePoint, s)| == |s|
  {
    if s == "" {
      assert s + [c] == [c];
      assert [c][1..] == "";
    } else {
      assert (s + [c])[1..] == s[1..] + [c];
      UnitsAppend(s[1..], c);
    }
  }

  lemma Irreflexive(s: string)
    ensures !Before(ByCodePoint, s, s)
  {
    if Before(ByCodePoint, s, s) {
      BeforeAsymmetric(ByCodePoint, s, s);
    }
  }

  /** Two values compare by all but their last digits, and by the last digits when those are equal. */
  lemma QuotientFirst(v: nat, w: nat)
    ensures v < w <==> v / 32 < w / 32 || (v / 32 == w / 32 && v % 32 < w % 32)
    ensures v == w <==> v / 32 == w / 32 && v % 32 == w % 32
  {
    assert v == 32 * (v / 32) + v % 32 && w == 32 * (w / 32) + w % 32;
  }

  lemma QuotientFits(v: nat, n: nat)
    requires n > 0 && v < Pow32(n)
    ensures v / 32 < Pow32(n - 1)
  {
  }

  lemma EmptyEncodings(v: nat, w: nat)
    requires v < Pow32(0) && w < Pow32(0)
    ensures v == w && Encode(v, 0) == Encode(w, 0)
  {
  }

  /** Encodings of one length sort as their values do. */
  lemma {:induction false} EncodeOrdered(v: nat, w: nat, n: nat)
    requires v < Pow32(n) && w < Pow32(n)
    ensures Before(ByCodePoint, Encode(v, n), Encode(w, n)) <==> v < w
  {
    hide Encode, Decode, Units, LexLess, UnitsOf, Pow32;
    if n == 0 {
      EmptyEncodings(v, w);
      Irreflexive(Encode(v, 0));
    } else {
      QuotientFirst(v, w);
      QuotientFits(v, n);
      QuotientFits(w, n);
      EncodeSplit(v, n);
      EncodeSplit(w, n);
      var a, b := Encode(v / 32, n - 1), Encode(w / 32, n - 1);
      var c, d := CROCKFORD[v % 32], CROCKFORD[w % 32];
      UnitsAppend(a, c);
      UnitsAppend(b, d);
      LexLastDigit(Units(ByCodePoint, a), c as int, Units(ByCodePoint, b), d as int);
      EncodeOrdered(v / 32, w / 32, n - 1);
      DecodeEncode(v / 32, n - 1);
      DecodeEncode(w / 32, n - 1);
      if Units(ByCodePoint, a) == Units(ByCodePoint, b) {
        UnitsInjective(ByCodePoint, a, b);
      }
      if v % 32 < w % 32 {
        DigitsAscend(v % 32, w % 32);
      } else if w % 32 < v % 32 {
        DigitsAscend(w % 32, v % 32);
      }
    }
  }

  lemma Fits(millis: nat, random: nat)
    requires random < RANDOM_RANGE
    ensures millis % TIME_RANGE * RANDOM_RANGE + random < Pow32(26)
  {
    assert Pow32(4) == 0x10_0000;
    assert Pow32(8) == 0x10_0000 * 0x10_0000;
    assert Pow32(12) == 0x10_0000 * 0x10_0000 * 0x10_0000;
    assert Pow32(16) == 0x10_0000 * 0x10_0000 * 0x10_0000 * 0x10_0000;
    assert Pow32(20) == 0x10_0000 * 0x10_0000 * 0x10_0000 * 0x10_0000 * 0x10_0000;
    assert Pow32(24) == 0x10_0000 * 0x10_0000 * 0x10_0000 * 0x10_0000 * 0x10_0000 * 0x10_0000;
  }

  /**
    Every identifier matches the verifier's pattern, decodes to its time and random part, and
    an identifier of a later millisecond (within the 48-bit range) sorts later.
   */
  lemma NewUlidCorrect(millis: nat, random: nat)
    requires random < RANDOM_RANGE
    ensures var id := NewUlid(millis, random);
            Receipts.Ulid(id) &&
            Decode(id) / 0x1_0000_0000_0000_0000_0000 == millis % 0x1_0000_0000_0000 &&
            Decode(id) % 0x1_0000_0000_0000_0000_0000 == random
  {
    hide Encode, Decode, Pow32, Receipts.Ulid;
    var val := millis % TIME_RANGE * RANDOM_RANGE + random;
    Fits(millis, random);
    DecodeEncode(val, 26);
    QuotientIs(val, RANDOM_RANGE, millis % TIME_RANGE, random);
    assert val == val / RANDOM_RANGE * RANDOM_RANGE + val % RANDOM_RANGE;
    MatchesPattern(val);
  }

  lemma MatchesPattern(val: nat)
    ensures Receipts.Ulid(Encode(val, 26))
  {
    EncodedDigits(val, 26);
    assert Receipts.IsCrockford(Encode(val, 26)[25]);
  }

  lemma LaterSortsLater(m1: nat, r1: nat, m2: nat, r2: nat)
    requires r1 < RANDOM_RANGE && r2 < RANDOM_RANGE && m1 % TIME_RANGE < m2 % TIME_RANGE
    ensures Before(ByCodePoint, NewUlid(m1, r1), NewUlid(m2, r2))
  {
    hide Encode, Pow32, Before;
    Fits(m1, r1);
    Fits(m2, r2);
    EncodeOrdered(m1 % TIME_RANGE * RANDOM_RANGE + r1, m2 % TIME_RANGE * RANDOM_RANGE + r2, 26);
  }
}
