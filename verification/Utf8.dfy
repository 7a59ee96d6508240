/** UTF-8 (RFC 3629) on Unicode scalar values: what `.encode("utf-8")` produces. */
module Utf8 {
  type Byte = b: int | 0 <= b < 256

  function EncodeChar(c: char): (e: seq<Byte>)
    ensures e != []
  {
    var n := c as int;
    if n < 0x80 then [n]
    else if n < 0x800 then [0xC0 + n / 64, 0x80 + n % 64]
    else if n < 0x10000 then [0xE0 + n / 4096, 0x80 + n / 64 % 64, 0x80 + n % 64]
    else [0xF0 + n / 262144, 0x80 + n / 4096 % 64, 0x80 + n / 64 % 64, 0x80 + n % 64]
  }

  function Encode(s: string): seq<Byte> {
    if s == "" then [] else EncodeChar(s[0]) + Encode(s[1..])
  }

  /** One byte after the first of a character. */
  predicate Tail(b: Byte) {
    0x80 <= b <= 0xBF
  }

  /** RFC 3629, section 3: the byte sequences of one character, by how many bits it needs. */
  lemma CharacterIs(c: char)
    ensures var n, e := c as int, EncodeChar(c);
            if n <= 0x7F then e == [n]
            else if n <= 0x7FF then
              |e| == 2 && 0xC2 <= e[0] <= 0xDF && Tail(e[1]) && n == (e[0] as int - 0xC0) * 64 + (e[1] as int - 0x80)
            else if n <= 0xFFFF then
              |e| == 3 && 0xE0 <= e[0] <= 0xEF && Tail(e[1]) && Tail(e[2]) &&
              n == (e[0] as int - 0xE0) * 4096 + (e[1] as int - 0x80) * 64 + (e[2] as int - 0x80)
            else
              |e| == 4 && 0xF0 <= e[0] <= 0xF4 && Tail(e[1]) && Tail(e[2]) && Tail(e[3]) &&
              n == (e[0] as int - 0xF0) * 262144 + (e[1] as int - 0x80) * 4096
              + (e[2] as int - 0x80) * 64 + (e[3] as int - 0x80)
  {
    Places(c as int);
  }

  lemma OneCharacter(c: char)
    ensures Encode([c]) == EncodeChar(c)
  {
    assert [c][1..] == "";
  }

  lemma {:induction false} EncodingsJoin(s: string, t: string)
    ensures Encode(s + t) == Encode(s) + Encode(t)
  {
    if s == "" {
      assert s + t == t;
    } else {
      assert (s + t)[1..] == s[1..] + t;
      EncodingsJoin(s[1..], t);
    }
  }

  /** The code point that starts a byte sequence. */
  function Lead(b: seq<Byte>): int {
    if b == [] then -1
    else if b[0] < 0x80 then b[0]
    else if b[0] < 0xE0 then (if |b| < 2 then -1 else (b[0] as int - 0xC0) * 64 + (b[1] as int - 0x80))
    else if b[0] < 0xF0 then
      (if |b| < 3 then -1 else (b[0] as int - 0xE0) * 4096 + (b[1] as int - 0x80) * 64 + (b[2] as int - 0x80))
    else if |b| < 4 then -1
    else (b[0] as int - 0xF0) * 262144 + (b[1] as int - 0x80) * 4096
         + (b[2] as int - 0x80) * 64 + (b[3] as int - 0x80)
  }

  /** The base-64 places of a code point. */
  lemma Places(n: nat)
    ensures n == n / 64 * 64 + n % 64
    ensures n == n / 4096 * 4096 + n / 64 % 64 * 64 + n % 64
    ensures n / 4096 == n / 262144 * 64 + n / 4096 % 64
  {
  }

  lemma LeadBounds(c: char)
    ensures var n := c as int;
            if n < 0x80 then |EncodeChar(c)| == 1 && EncodeChar(c)[0] < 0x80
            else if n < 0x800 then |EncodeChar(c)| == 2 && 0x80 <= EncodeChar(c)[0] < 0xE0
            else if n < 0x10000 then |EncodeChar(c)| == 3 && 0xE0 <= EncodeChar(c)[0] < 0xF0
            else |EncodeChar(c)| == 4 && 0xF0 <= EncodeChar(c)[0]
  {
  }

  lemma LeadReads(b: seq<Byte>, e: seq<Byte>)
    requires e != [] && |e| <= |b| && forall i :: 0 <= i < |e| ==> b[i] == e[i]
    requires |e| == if e[0] < 0x80 then 1 else if e[0] < 0xE0 then 2 else if e[0] < 0xF0 then 3 else 4
    ensures Lead(b) == Lead(e)
  {
  }

  lemma LeadOfChar(c: char)
    ensures Lead(EncodeChar(c)) == c as int
  {
    Places(c as int);
    LeadBounds(c);
  }

  lemma LeadOfEncoded(c: char, x: seq<Byte>)
    ensures Lead(EncodeChar(c) + x) == c as int
  {
    LeadBounds(c);
    LeadOfChar(c);
    hide Lead, EncodeChar;
    assert forall i :: 0 <= i < |EncodeChar(c)| ==> (EncodeChar(c) + x)[i] == EncodeChar(c)[i];
    LeadReads(EncodeChar(c) + x, EncodeChar(c));
  }

  lemma {:induction false} EncodeInjective(s: string, t: string)
    requires Encode(s) == Encode(t)
    ensures s == t
  {
    if s != "" && t != "" {
      LeadOfEncoded(s[0], Encode(s[1..]));
      LeadOfEncoded(t[0], Encode(t[1..]));
      var k := |EncodeChar(s[0])|;
      assert Encode(s)[k..] == Encode(s[1..]) && Encode(t)[k..] == Encode(t[1..]);
      EncodeInjective(s[1..], t[1..]);
      assert s == [s[0]] + s[1..] && t == [t[0]] + t[1..];
    }
  }
}
