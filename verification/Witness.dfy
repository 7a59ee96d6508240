/** The laws assumed of the library calls can all hold at once. */
module Witness {
  import opened Wrappers
  import opened Text
  import opened JsonText
  import opened Json
  import opened Ratios
  import opened P = Platform
  import Utf8

  function Padded(n: nat, places: nat): (s: string)
    ensures |s| == places && Digits(s)
  {
    if places == 0 then "" else Padded(n / 10, places - 1) + [Digit(n % 10)]
  }

  function Pow(n: nat): nat {
    if n == 0 then 1 else 10 * Pow(n - 1)
  }

  lemma {:induction false} PaddedValue(n: nat, places: nat)
    requires n < Pow(places)
    ensures NatValue(Padded(n, places)) == n
  {
    var s := Padded(n, places);
    if places > 0 {
      PaddedValue(n / 10, places - 1);
      assert s[..places - 1] == Padded(n / 10, places - 1);
    }
  }

  /** `n` millionths with six decimals. */
  function Fixed(n: int): string {
    var m: nat := if n < 0 then -n else n;
    (if n < 0 then "-" else "") + NatText(m / 1000000) + "." + Padded(m % 1000000, 6)
  }

  lemma PointSix(f: string)
    requires |f| == 6 && Digits(f)
    ensures FracSpan("." + f) == 7
  {
    assert ("." + f)[1..] == f;
    DigitsSpan(f);
  }

  lemma WholeBeforePoint(w: string, f: string)
    requires w != "" && Digits(w) && (|w| > 1 ==> w[0] != '0')
    ensures NatSpan(w + ("." + f)) == |w|
  {
    DigitsSpan(w);
    DigitSpanStops(w, "." + f);
  }

  lemma SignedSpan(negative: bool, x: string)
    requires x != "" && x[0] != '-' && NatSpan(x) > 0
    ensures IntSpan((if negative then "-" else "") + x) == (if negative then 1 else 0) + NatSpan(x)
  {
    hide NatSpan;
    if negative {
      assert ("-" + x)[1..] == x;
    } else {
      assert "" + x == x;
    }
  }

  lemma Slices(sign: string, w: string, f: string)
    ensures var s := sign + (w + ("." + f));
            var i := |sign| + |w|;
            s[|sign|..i] == w && s[i..] == "." + f && s[i + 1..] == f
  {
  }

  lemma FixedIs(n: int, m: nat)
    requires m == if n < 0 then -n else n
    ensures Fixed(n) == (if n < 0 then "-" else "") + (NatText(m / 1000000) + ("." + Padded(m % 1000000, 6)))
  {
    hide NatText, Padded;
  }

  lemma FixedSpans(n: int, m: nat, sign: nat)
    requires m == (if n < 0 then -n else n) && sign == if n < 0 then 1 else 0
    ensures var s := Fixed(n);
            var i := sign + |NatText(m / 1000000)|;
            IntSpan(s) == i && FracSpan(s[i..]) == 7 && |s| == i + 7 &&
            (n < 0 <==> s[0] == '-') && s[sign..i] == NatText(m / 1000000) && s[i + 1..] == Padded(m % 1000000, 6)
  {
    var w, f := NatText(m / 1000000), Padded(m % 1000000, 6);
    hide Fixed, NatText, Padded, IntSpan, NatSpan, FracSpan;
    FixedIs(n, m);
    WholeBeforePoint(w, f);
    SignedSpan(n < 0, w + ("." + f));
    PointSix(f);
    Slices(if n < 0 then "-" else "", w, f);
  }

  lemma ShiftsBack(x: real)
    ensures Shift(x, 0) == x && Shift(x, -6) == x * 0.000001
  {
    MinusSix();
  }

  lemma MinusSix()
    ensures Pow10(-6) == 0.000001
  {
    assert Pow10(-1) == 0.1;
    assert Pow10(-2) == 0.01;
    assert Pow10(-3) == 0.001;
    assert Pow10(-4) == 0.0001;
    assert Pow10(-5) == 0.00001;
  }

  lemma NumberOfSpans(s: string, i: nat)
    requires 0 < i < |s| && IntSpan(s) == i && FracSpan(s[i..]) == |s| - i
    ensures IsNumber(s) && !IsInteger(s)
  {
    hide IntSpan, FracSpan;
    assert s[|s|..] == "";
  }

  lemma FixedIsFloat(n: int)
    ensures IsNumber(Fixed(n)) && !IsInteger(Fixed(n))
  {
    hide *;
    FixedSpans(n, if n < 0 then -n else n, if n < 0 then 1 else 0);
    NumberOfSpans(Fixed(n), IntSpan(Fixed(n)));
  }

  lemma ValueOfParts(s: FloatLexeme, i: nat, whole: string, frac: string)
    requires IntSpan(s) == i && 0 < i && i + 1 + |frac| == |s| && FracSpan(s[i..]) == 1 + |frac|
    requires whole == (if s[0] == '-' then s[1..i] else s[0..i]) && frac == s[i + 1..]
    ensures var magnitude := Shift(NatOf(whole) as real + Shift(NatOf(frac) as real, -|frac|), 0);
            LexemeValue(s) == if s[0] == '-' then -magnitude else magnitude
  {
    hide IntSpan, FracSpan, NatOf, Shift, IsNumber, IsInteger;
    assert s[i + 1 + |frac|..] == "";
    assert s[i + 1..i + 1 + |frac|] == frac;
    assert s[0..i] == s[..i];
  }

  lemma FixedValue(n: int, m: nat)
    requires m == if n < 0 then -n else n
    ensures IsNumber(Fixed(n)) && !IsInteger(Fixed(n))
    ensures var magnitude := Shift((m / 1000000) as real + Shift((m % 1000000) as real, -6), 0);
            LexemeValue(Fixed(n)) == if n < 0 then -magnitude else magnitude
  {
    hide *;
    var w, f := NatText(m / 1000000), Padded(m % 1000000, 6);
    FixedIsFloat(n);
    FixedSpans(n, m, if n < 0 then 1 else 0);
    NatTextValue(m / 1000000);
    SixDigits(m % 1000000);
    ValueOfParts(Fixed(n), IntSpan(Fixed(n)), w, f);
    DigitsHaveValue(w);
    DigitsHaveValue(f);
  }

  lemma DigitsHaveValue(s: string)
    requires Digits(s)
    ensures NatOf(s) == NatValue(s)
  {
    hide NatValue;
  }

  lemma SixDigits(r: nat)
    requires r < 1000000
    ensures NatValue(Padded(r, 6)) == r
  {
    assert Pow(3) == 1000 && Pow(6) == 1000000;
    PaddedValue(r, 6);
  }

  lemma FixedDenotes(n: int)
    ensures WritesFloat(Fixed(n), n as real / MILLION)
  {
    hide Fixed, LexemeValue, IsNumber, IsInteger, Shift;
    var m: nat := if n < 0 then -n else n;
    FixedIsFloat(n);
    FixedValue(n, m);
    ShiftsBack((m % 1000000) as real);
    ShiftsBack((m / 1000000) as real + (m % 1000000) as real * 0.000001);
    assert m == m / 1000000 * 1000000 + m % 1000000;
    assert m as real == (m / 1000000) as real * 1000000.0 + (m % 1000000) as real;
  }

  function ToChars(b: Bytes): (s: string)
    ensures |s| == |b| && forall i :: 0 <= i < |s| ==> s[i] as int == b[i]
  {
    seq(|b|, i requires 0 <= i < |b| => b[i] as char)
  }

  function ToBytes(s: string): (b: Bytes)
    ensures |b| == |s| && forall i :: 0 <= i < |s| ==> b[i] == s[i] as int % 256
  {
    seq(|s|, i requires 0 <= i < |s| => s[i] as int % 256)
  }

  lemma BytesBack(b: Bytes)
    ensures ToBytes(ToChars(b)) == b
  {
  }

  function Model(): Platform {
    P.Platform.Platform(
      (b: Bytes) => seq(64, i => '0'),
      (k: PrivateKey) => k,
      (k: PrivateKey, b: Bytes) => b,
      (k: PublicKey, sig: Bytes, b: Bytes) => true,
      (b: Bytes) => ['x'] + ToChars(b),
      (s: string) => if s == "" then None else Some(ToBytes(s[1..])),
      (h: string) => h,
      (x: real) => Fixed((x * MILLION).Floor),
      (v: Json) => "",
      (v: Json) => "",
      (s: string) => s,
      (s: string) => s)
  }

  /** The hypotheses of the agreement theorems are satisfiable. */
  lemma LawsSatisfiable()
    ensures Laws(Model())
  {
    hide Fixed, LexemeValue, IsNumber, IsInteger;
    var p := Model();
    forall b: Bytes ensures p.unbase64(p.base64(b)) == Some(b) {
      var s := ['x'] + ToChars(b);
      assert s[1..] == ToChars(b);
      BytesBack(b);
    }
    forall x: real | IsMicro(x) ensures WritesFloat(p.floatText(x), x) {
      FixedDenotes((x * MILLION).Floor);
    }
  }
}
