/** Exact ratio arithmetic: `round(x, 6)` on reals, ties to even. */
module Ratios {

  function RoundHalfEven(x: real): (n: int)
    ensures -0.5 <= n as real - x <= 0.5
  {
    var f := x.Floor;
    var d := x - f as real;
    if d < 0.5 then f
    else if d > 0.5 then f + 1
    else if f % 2 == 0 then f
    else f + 1
  }

  /** Half-way cases go to the even neighbour; every other value to the nearest. */
  lemma TiesToEven(x: real)
    ensures x - x.Floor as real == 0.5 ==> RoundHalfEven(x) % 2 == 0
    ensures x - x.Floor as real != 0.5 ==> -0.5 < RoundHalfEven(x) as real - x < 0.5
  {
  }

  const MILLION := 1000000.0

  /** `round(x, 6)`. */
  function Round6(x: real): (r: real)
    ensures -0.5 <= (r - x) * MILLION <= 0.5
  {
    RoundHalfEven(x * MILLION) as real / MILLION
  }

  /** A multiple of one millionth: what `round(x, 6)` returns. */
  predicate IsMicro(x: real) {
    (x * MILLION).Floor as real == x * MILLION
  }

  /** Rounding a multiple of one millionth does nothing. */
  lemma RoundOfMicro(x: real)
    requires IsMicro(x)
    ensures Round6(x) == x
  {
    assert (x * MILLION - (x * MILLION).Floor as real) == 0.0;
  }

  lemma RoundIsMicro(x: real)
    ensures IsMicro(Round6(x))
  {
    var n := RoundHalfEven(x * MILLION);
    assert Round6(x) * MILLION == n as real;
    assert (n as real).Floor == n;
  }

  lemma MicroSum(x: real, y: real)
    requires IsMicro(x) && IsMicro(y)
    ensures IsMicro(x + y)
  {
    var m, n := (x * MILLION).Floor, (y * MILLION).Floor;
    assert (x + y) * MILLION == (m + n) as real;
    assert ((m + n) as real).Floor == m + n;
  }

  function Abs(x: real): real {
    if x < 0.0 then -x else x
  }

  /** `abs(a - b) > 1e-6` fails. */
  predicate Close(a: real, b: real) {
    Abs(a - b) * MILLION <= 1.0
  }

  /** `max(xs, default=0.0)`. */
  function MaxOf(xs: seq<real>): (m: real)
    ensures xs == [] ==> m == 0.0
    ensures xs != [] ==> m in xs
    ensures forall i :: 0 <= i < |xs| ==> xs[i] <= m
  {
    if xs == [] then 0.0
    else if |xs| == 1 then xs[0]
    else
      var m := MaxOf(xs[1..]);
      assert forall i :: 1 <= i < |xs| ==> xs[i] == xs[1..][i - 1];
      if xs[0] >= m then xs[0] else m
  }
}
