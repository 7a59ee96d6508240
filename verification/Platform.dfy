/**
  The library calls of producer and verifier, as uninterpreted functions with the laws the
  code relies on.  Nothing is assumed about collisions of the hash.
 */
module Platform {
  import opened Wrappers
  import opened Text
  import opened JsonText
  import opened Ratios
  import opened Json
  import Utf8

  type PublicKey(==) = nat
  type PrivateKey(==) = nat
  type Bytes = seq<Utf8.Byte>

  datatype Platform = Platform(
    sha256: Bytes -> string,                     // hex digest
    publicOf: PrivateKey -> PublicKey,
    sign: (PrivateKey, Bytes) -> Bytes,          // Ed25519, RFC 8032 section 5.1
    verifies: (PublicKey, Bytes, Bytes) -> bool, // key, signature, message
    base64: Bytes -> string,
    unbase64: string -> Option<Bytes>,
    trustDomain: string -> string,
    floatText: real -> string,                   // how a float is written in JSON
    dumps: Json -> string,                       // json.dumps(v), for hashing a local-only value
    str: Json -> string,                         // str(v)
    lower: string -> string,
    strip: string -> string)

  predicate IsLowerHex(c: char) {
    '0' <= c <= '9' || 'a' <= c <= 'f'
  }

  /** Exactly 64 lower-case hexadecimal digits. */
  predicate HexDigest(s: string) {
    |s| == 64 && forall i :: 0 <= i < |s| ==> IsLowerHex(s[i])
  }

  function Pow10(e: int): real
    decreases if e < 0 then -e else e
  {
    if e == 0 then 1.0 else if e > 0 then 10.0 * Pow10(e - 1) else Pow10(e + 1) / 10.0
  }

  /** `x` with its decimal point moved `e` places to the right. */
  function Shift(x: real, e: int): real {
    x * Pow10(e)
  }

  /** The decimal value a float lexeme denotes. */
  function LexemeValue(s: FloatLexeme): real {
    var i := IntSpan(s);
    var f := FracSpan(s[i..]);
    var negative := s[0] == '-';
    var whole := NatOf(if negative then s[1..i] else s[..i]);
    var frac := if f == 0 then "" else s[i + 1..i + f];
    var magnitude := Shift(whole as real + Shift(NatOf(frac) as real, -|frac|), ExpOf(s[i + f..]));
    if negative then -magnitude else magnitude
  }

  function NatOf(s: string): nat {
    if Digits(s) then NatValue(s) else 0
  }

  function ExpOf(s: string): int {
    if |s| < 2 then 0
    else if s[1] == '-' then 0 - (NatOf(s[2..]) as int)
    else if s[1] == '+' then NatOf(s[2..])
    else NatOf(s[1..])
  }

  ghost predicate HashLaw(p: Platform) {
    forall b: Bytes :: HexDigest(p.sha256(b))
  }

  ghost predicate SignatureLaw(p: Platform) {
    && (forall k: PrivateKey, b: Bytes :: p.verifies(p.publicOf(k), p.sign(k, b), b))
    && (forall k: PrivateKey, b: Bytes :: p.base64(p.sign(k, b)) != "")
    && (forall b: Bytes :: p.unbase64(p.base64(b)) == Some(b))
  }

  predicate WritesFloat(s: string, x: real) {
    IsNumber(s) && !IsInteger(s) && LexemeValue(s) == x
  }

  /** A ratio rounded to six places is written as a decimal that denotes it. */
  ghost predicate FloatLaw(p: Platform) {
    forall x: real :: IsMicro(x) ==> WritesFloat(p.floatText(x), x)
  }

  ghost predicate Laws(p: Platform) {
    HashLaw(p) && SignatureLaw(p) && FloatLaw(p)
  }
}
