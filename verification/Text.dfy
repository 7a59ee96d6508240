/**
  Strings as the two languages of the repository see them.  Python compares strings by code
  point; JavaScript compares them by UTF-16 code unit.  Both are lexicographic orders on a
  sequence of numbers, so one family of order lemmas serves both.
 */
module Text {

  // ---------- lexicographic order ----------

  predicate LexLess(a: seq<int>, b: seq<int>) {
    if b == [] then false
    else if a == [] then true
    else if a[0] != b[0] then a[0] < b[0]
    else LexLess(a[1..], b[1..])
  }

  lemma {:induction false} LexTotal(a: seq<int>, b: seq<int>)
    ensures LexLess(a, b) || a == b || LexLess(b, a)
  {
    if a != [] && b != [] && a[0] == b[0] {
      LexTotal(a[1..], b[1..]);
      assert a == [a[0]] + a[1..] && b == [b[0]] + b[1..];
    }
  }

  lemma {:induction false} LexAsymmetric(a: seq<int>, b: seq<int>)
    requires LexLess(a, b)
    ensures !LexLess(b, a) && a != b
  {
    if a != [] && a[0] == b[0] {
      LexAsymmetric(a[1..], b[1..]);
    }
  }

  lemma {:induction false} LexTransitive(a: seq<int>, b: seq<int>, c: seq<int>)
    requires LexLess(a, b) && LexLess(b, c)
    ensures LexLess(a, c)
  {
    if a != [] && a[0] == b[0] == c[0] {
      LexTransitive(a[1..], b[1..], c[1..]);
    }
  }

  lemma {:induction false} LexCommonPrefix(p: seq<int>, a: seq<int>, b: seq<int>)
    ensures LexLess(p + a, p + b) == LexLess(a, b)
  {
    if p == [] {
      assert p + a == a && p + b == b;
    } else {
      assert (p + a)[1..] == p[1..] + a && (p + b)[1..] == p[1..] + b;
      LexCommonPrefix(p[1..], a, b);
    }
  }

  // ---------- the two key orders ----------

  datatype KeyOrder = ByCodePoint | ByCodeUnit

  /** The numbers that one character contributes to the comparison. */
  function UnitsOf(o: KeyOrder, c: char): (u: seq<int>)
    ensures 1 <= |u| <= 2
  {
    var n := c as int;
    if o == ByCodePoint || n < 0x10000 then [n]
    else [0xD800 + (n - 0x10000) / 0x400, 0xDC00 + (n - 0x10000) % 0x400]
  }

  /** JavaScript compares UTF-16 code units (RFC 2781, section 2.1), Python code points. */
  lemma UnitsAre(o: KeyOrder, c: char)
    ensures var n, u := c as int, UnitsOf(o, c);
            if o == ByCodePoint || n < 0x10000 then u == [n]
            else
              |u| == 2 && 0xD800 <= u[0] <= 0xDBFF && 0xDC00 <= u[1] <= 0xDFFF &&
              n == 0x10000 + (u[0] - 0xD800) * 0x400 + (u[1] - 0xDC00)
  {
    assert c as int >= 0x10000 ==> (c as int - 0x10000) / 0x400 < 0x400;
  }

  function Units(o: KeyOrder, s: string): seq<int> {
    if s == "" then [] else UnitsOf(o, s[0]) + Units(o, s[1..])
  }

  predicate Before(o: KeyOrder, a: string, b: string) {
    LexLess(Units(o, a), Units(o, b))
  }

  /** A character's units can be recovered from the front of any text that starts with them. */
  lemma UnitsOfPrefixFree(o: KeyOrder, c: char, x: seq<int>, d: char, y: seq<int>)
    requires UnitsOf(o, c) + x == UnitsOf(o, d) + y
    ensures c == d && x == y
  {
    var l, r := UnitsOf(o, c) + x, UnitsOf(o, d) + y;
    assert l[0] == UnitsOf(o, c)[0] && r[0] == UnitsOf(o, d)[0];
    var m, n := c as int, d as int;
    if |UnitsOf(o, c)| == 2 && |UnitsOf(o, d)| == 2 {
      assert l[1] == UnitsOf(o, c)[1] && r[1] == UnitsOf(o, d)[1];
      assert m - 0x10000 == 0x400 * ((m - 0x10000) / 0x400) + (m - 0x10000) % 0x400;
      assert n - 0x10000 == 0x400 * ((n - 0x10000) / 0x400) + (n - 0x10000) % 0x400;
    }
    assert m == n;
    assert l[|UnitsOf(o, c)|..] == x && r[|UnitsOf(o, d)|..] == y;
  }

  lemma {:induction false} UnitsInjective(o: KeyOrder, a: string, b: string)
    requires Units(o, a) == Units(o, b)
    ensures a == b
  {
    if a != "" && b != "" {
      UnitsOfPrefixFree(o, a[0], Units(o, a[1..]), b[0], Units(o, b[1..]));
      UnitsInjective(o, a[1..], b[1..]);
      assert a == [a[0]] + a[1..] && b == [b[0]] + b[1..];
    }
  }

  lemma BeforeTotal(o: KeyOrder, a: string, b: string)
    ensures Before(o, a, b) || a == b || Before(o, b, a)
  {
    LexTotal(Units(o, a), Units(o, b));
    if Units(o, a) == Units(o, b) {
      UnitsInjective(o, a, b);
    }
  }

  lemma BeforeAsymmetric(o: KeyOrder, a: string, b: string)
    requires Before(o, a, b)
    ensures !Before(o, b, a) && a != b
  {
    LexAsymmetric(Units(o, a), Units(o, b));
  }

  lemma BeforeTransitive(o: KeyOrder, a: string, b: string, c: string)
    requires Before(o, a, b) && Before(o, b, c)
    ensures Before(o, a, c)
  {
    LexTransitive(Units(o, a), Units(o, b), Units(o, c));
  }

  // ---------- where the two orders part ----------

  /** One character of U+E000..U+FFFF against one beyond U+FFFF. */
  predicate CrossingChars(c: char, d: char) {
    0xE000 <= c as int < 0x10000 <= d as int
  }

  /** The first difference of the two strings is such a pair, in either direction. */
  predicate Crossing(a: string, b: string) {
    a != "" && b != "" &&
    if a[0] == b[0] then Crossing(a[1..], b[1..])
    else CrossingChars(a[0], b[0]) || CrossingChars(b[0], a[0])
  }

  /** The two key orders disagree on a pair of strings exactly when it is a crossing pair. */
  lemma {:induction false} OrdersDisagreeIffCrossing(a: string, b: string)
    ensures Before(ByCodePoint, a, b) != Before(ByCodeUnit, a, b) <==> Crossing(a, b)
  {
    if a != "" && b != "" {
      if a[0] == b[0] {
        LexCommonPrefix(UnitsOf(ByCodePoint, a[0]), Units(ByCodePoint, a[1..]), Units(ByCodePoint, b[1..]));
        LexCommonPrefix(UnitsOf(ByCodeUnit, a[0]), Units(ByCodeUnit, a[1..]), Units(ByCodeUnit, b[1..]));
        OrdersDisagreeIffCrossing(a[1..], b[1..]);
      } else {
        FirstCharacterDecides(a, b);
      }
    }
  }

  lemma FirstCharacterDecides(a: string, b: string)
    requires a != "" && b != "" && a[0] != b[0]
    ensures Before(ByCodePoint, a, b) == (a[0] < b[0])
    ensures Before(ByCodeUnit, a, b) ==
            (if CrossingChars(a[0], b[0]) || CrossingChars(b[0], a[0]) then b[0] < a[0] else a[0] < b[0])
  {
    var u, v := UnitsOf(ByCodeUnit, a[0]), UnitsOf(ByCodeUnit, b[0]);
    var x, y := Units(ByCodeUnit, a), Units(ByCodeUnit, b);
    assert x[0] == u[0] && y[0] == v[0];
    if |u| == 2 && |v| == 2 {
      var m, n := a[0] as int - 0x10000, b[0] as int - 0x10000;
      assert m == 0x400 * (m / 0x400) + m % 0x400 && n == 0x400 * (n / 0x400) + n % 0x400;
      if u[0] == v[0] {
        assert x[1..][0] == u[1] && y[1..][0] == v[1];
        assert LexLess(x, y) == LexLess(x[1..], y[1..]) == (u[1] < v[1]);
      }
    }
  }

  // ---------- sorted keys ----------

  predicate Sorted(o: KeyOrder, ks: seq<string>) {
    forall i, j :: 0 <= i < j < |ks| ==> Before(o, ks[i], ks[j])
  }

  /** `k` is the least key of the set. */
  predicate IsFirst(o: KeyOrder, k: string, keys: set<string>) {
    k in keys && forall x :: x in keys ==> x == k || Before(o, k, x)
  }

  lemma {:induction false} HasFirst(o: KeyOrder, keys: set<string>)
    requires keys != {}
    ensures exists k :: IsFirst(o, k, keys)
    decreases keys
  {
    var a :| a in keys;
    var rest := keys - {a};
    assert forall x :: x in keys ==> x == a || x in rest;
    if rest == {} {
      assert IsFirst(o, a, keys);
    } else {
      HasFirst(o, rest);
      var b :| IsFirst(o, b, rest);
      BeforeTotal(o, a, b);
      if Before(o, a, b) {
        forall x | x in rest && x != b ensures Before(o, a, x) {
          BeforeTransitive(o, a, b, x);
        }
        assert IsFirst(o, a, keys);
      } else {
        assert IsFirst(o, b, keys);
      }
    }
  }

  lemma FirstIsUnique(o: KeyOrder, keys: set<string>)
    ensures forall k, l :: IsFirst(o, k, keys) && IsFirst(o, l, keys) ==> k == l
  {
    forall k, l | IsFirst(o, k, keys) && IsFirst(o, l, keys) ensures k == l {
      if k != l {
        BeforeAsymmetric(o, k, l);
      }
    }
  }

  function First(o: KeyOrder, keys: set<string>): (k: string)
    requires keys != {}
    ensures IsFirst(o, k, keys)
  {
    HasFirst(o, keys);
    FirstIsUnique(o, keys);
    var k :| k in keys && IsFirst(o, k, keys);
    k
  }

  /** Key order used by `sort_keys=True` and by `Object.keys(obj).sort()`. */
  function SortedKeys(o: KeyOrder, keys: set<string>): (ks: seq<string>)
    ensures Sorted(o, ks)
    ensures forall k :: k in ks <==> k in keys
    decreases keys
  {
    if keys == {} then []
    else
      var k := First(o, keys);
      var rest := SortedKeys(o, keys - {k});
      [k] + rest
  }

  /** A set has one sorted listing. */
  lemma {:induction false} SortedListingUnique(o: KeyOrder, a: seq<string>, b: seq<string>)
    requires Sorted(o, a) && Sorted(o, b)
    requires forall k :: k in a <==> k in b
    ensures a == b
  {
    assert b != [] ==> b[0] in b;
    if a != [] {
      assert a[0] in b;
      assert b[0] in a;
      if a[0] != b[0] {
        assert Before(o, a[0], b[0]) by { var i :| 0 <= i < |a| && a[i] == b[0]; }
        assert Before(o, b[0], a[0]) by { var i :| 0 <= i < |b| && b[i] == a[0]; }
        BeforeAsymmetric(o, a[0], b[0]);
      }
      forall k ensures k in a[1..] <==> k in b[1..] {
        TailMembers(o, a, k);
        TailMembers(o, b, k);
      }
      SortedListingUnique(o, a[1..], b[1..]);
      assert a == [a[0]] + a[1..] && b == [b[0]] + b[1..];
    }
  }

  lemma TailMembers(o: KeyOrder, a: seq<string>, k: string)
    requires a != [] && Sorted(o, a)
    ensures k in a[1..] <==> k in a && k != a[0]
  {
    assert a == [a[0]] + a[1..];
    if k in a[1..] {
      var i :| 0 <= i < |a[1..]| && a[1..][i] == k;
      assert Before(o, a[0], a[i + 1]);
      BeforeAsymmetric(o, a[0], k);
    }
  }

  // ---------- decimal integers ----------

  function Digit(d: nat): (c: char)
    requires d < 10
    ensures '0' <= c <= '9' && c as int == 48 + d
  {
    (48 + d) as char
  }

  predicate Digits(s: string) {
    forall i :: 0 <= i < |s| ==> '0' <= s[i] <= '9'
  }

  function NatText(n: nat): (s: string)
    ensures s != "" && Digits(s)
    ensures |s| > 1 || n > 0 ==> s[0] != '0'
  {
    if n < 10 then [Digit(n)] else NatText(n / 10) + [Digit(n % 10)]
  }

  function NatValue(s: string): nat
    requires Digits(s)
  {
    if s == "" then 0
    else
      var d := s[|s| - 1];
      NatValue(s[..|s| - 1]) * 10 + (d as int - 48)
  }

  lemma {:induction false} NatTextValue(n: nat)
    ensures NatValue(NatText(n)) == n
  {
    var s := NatText(n);
    if n < 10 {
      assert s[..|s| - 1] == "";
    } else {
      NatTextValue(n / 10);
      assert s[..|s| - 1] == NatText(n / 10);
    }
  }

  function IntText(n: int): string {
    if n < 0 then "-" + NatText(-n) else NatText(n)
  }
}
