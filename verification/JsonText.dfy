/**
  JSON text (RFC 8259): the tree a scanner builds before objects become dictionaries, the
  writer of `json.dumps`, the reader of `json.loads`, and the round trip between them.
 */
module JsonText {
  import opened Wrappers
  import opened Text

  // ---------- numbers (RFC 8259, section 6) ----------

  /** How many characters at the front of `s` are digits. */
  function DigitSpan(s: string): (n: nat)
    ensures n <= |s|
  {
    if s != "" && '0' <= s[0] <= '9' then 1 + DigitSpan(s[1..]) else 0
  }

  /** Length of the integer part `-?(0|[1-9][0-9]*)` at the front of `s`, or 0. */
  function IntSpan(s: string): (n: nat)
    ensures n <= |s|
  {
    if s == "" then 0
    else if s[0] == '-' then (if NatSpan(s[1..]) == 0 then 0 else 1 + NatSpan(s[1..]))
    else NatSpan(s)
  }

  function NatSpan(s: string): (n: nat)
    ensures n <= |s|
  {
    if s != "" && s[0] == '0' then 1 else DigitSpan(s)
  }

  function FracSpan(s: string): (n: nat)
    ensures n <= |s|
  {
    if s == "" || s[0] != '.' || DigitSpan(s[1..]) == 0 then 0 else 1 + DigitSpan(s[1..])
  }

  function ExpSpan(s: string): (n: nat)
    ensures n <= |s|
  {
    if s == "" || (s[0] != 'e' && s[0] != 'E') then 0
    else
      var sign := if |s| > 1 && (s[1] == '+' || s[1] == '-') then 2 else 1;
      if DigitSpan(s[sign..]) == 0 then 0 else sign + DigitSpan(s[sign..])
  }

  /** Length of the longest number at the front of `s`, or 0 when there is none. */
  function NumberSpan(s: string): (n: nat)
    ensures n <= |s|
  {
    var i := IntSpan(s);
    if i == 0 then 0
    else
      var f := FracSpan(s[i..]);
      i + f + ExpSpan(s[i + f..])
  }

  predicate IsNumber(s: string) {
    s != "" && NumberSpan(s) == |s|
  }

  /** A number without fraction or exponent: what `json.loads` turns into an `int`. */
  predicate IsInteger(s: string) {
    s != "" && IntSpan(s) == |s|
  }

  type NumberLexeme = s: string | IsNumber(s) witness "0"

  /** No character of a number can follow: what every printed number is followed by. */
  predicate EndsNumber(rest: string) {
    rest == "" || !(('0' <= rest[0] <= '9') || rest[0] == '.' || rest[0] == 'e' || rest[0] == 'E')
  }

  lemma {:induction false} DigitSpanStops(s: string, rest: string)
    requires rest == "" || !('0' <= rest[0] <= '9')
    ensures DigitSpan(s + rest) == DigitSpan(s)
  {
    if s == "" {
      assert s + rest == rest;
    } else {
      assert (s + rest)[1..] == s[1..] + rest;
      DigitSpanStops(s[1..], rest);
    }
  }

  lemma IntSpanStops(s: string, rest: string)
    requires s != "" && EndsNumber(rest)
    ensures IntSpan(s + rest) == IntSpan(s)
  {
    assert (s + rest)[1..] == s[1..] + rest;
    DigitSpanStops(s, rest);
    DigitSpanStops(s[1..], rest);
    if s[0] == '-' && s[1..] == "" {
      assert s[1..] + rest == rest;
    }
  }

  lemma FracSpanStops(s: string, rest: string)
    requires EndsNumber(rest)
    ensures FracSpan(s + rest) == FracSpan(s)
  {
    if s == "" {
      assert s + rest == rest;
    } else {
      assert (s + rest)[1..] == s[1..] + rest;
      DigitSpanStops(s[1..], rest);
    }
  }

  lemma ExpSpanStops(s: string, rest: string)
    requires EndsNumber(rest) && ExpSpan(s) == |s|
    ensures ExpSpan(s + rest) == ExpSpan(s)
  {
    if s == "" {
      assert s + rest == rest;
    } else {
      var sign := if |s| > 1 && (s[1] == '+' || s[1] == '-') then 2 else 1;
      assert (s + rest)[sign..] == s[sign..] + rest;
      DigitSpanStops(s[sign..], rest);
    }
  }

  lemma NumberSpanStops(s: string, rest: string)
    requires IsNumber(s) && EndsNumber(rest)
    ensures NumberSpan(s + rest) == |s|
  {
    hide IntSpan, FracSpan, ExpSpan, EndsNumber;
    IntSpanStops(s, rest);
    var i := IntSpan(s);
    assert (s + rest)[i..] == s[i..] + rest;
    FracSpanStops(s[i..], rest);
    var f := FracSpan(s[i..]);
    assert (s + rest)[i + f..] == s[i + f..] + rest;
    ExpSpanStops(s[i + f..], rest);
  }

  lemma {:induction false} DigitsSpan(s: string)
    requires Digits(s)
    ensures DigitSpan(s) == |s|
  {
    if s != "" {
      DigitsSpan(s[1..]);
    }
  }

  lemma IntTextIsInteger(n: int)
    ensures IsInteger(IntText(n)) && IsNumber(IntText(n))
  {
    var m := if n < 0 then -n else n;
    var d := NatText(m);
    DigitsSpan(d);
    if n < 0 {
      assert IntText(n)[1..] == d;
    }
    assert IntText(n)[|IntText(n)|..] == "";
  }

  // ---------- strings (RFC 8259, section 7) ----------

  /** `indent=None, separators=(",", ":"), ensure_ascii=False`, or `indent=2` with ASCII output. */
  datatype Style = Compact | Indented

  function HexDigit(d: nat): (c: char)
    requires d < 16
  {
    if d < 10 then (48 + d) as char else (87 + d) as char
  }

  function HexValue(c: char): (v: Option<nat>)
    ensures v.Some? ==> v.value < 16
  {
    if '0' <= c <= '9' then Some(c as int - 48)
    else if 'a' <= c <= 'f' then Some(c as int - 87)
    else if 'A' <= c <= 'F' then Some(c as int - 55)
    else None
  }

  function UnicodeEscape(n: nat): (s: string)
    requires n < 0x10000
    ensures |s| == 6
  {
    ['\\', 'u', HexDigit(n / 4096), HexDigit(n / 256 % 16), HexDigit(n / 16 % 16), HexDigit(n % 16)]
  }

  function EscapeChar(st: Style, c: char): (s: string)
    ensures s != "" && s[0] != '"'
  {
    var n := c as int;
    if c == '"' then ['\\', '"']
    else if c == '\\' then ['\\', '\\']
    else if n == 10 then ['\\', 'n']
    else if n == 13 then ['\\', 'r']
    else if n == 9 then ['\\', 't']
    else if n == 8 then ['\\', 'b']
    else if n == 12 then ['\\', 'f']
    else if 0x20 <= n && (st == Compact || n < 0x7F) then [c]
    else if n < 0x10000 then UnicodeEscape(n)
    else UnicodeEscape(0xD800 + (n - 0x10000) / 0x400) + UnicodeEscape(0xDC00 + (n - 0x10000) % 0x400)
  }

  function EscapeAll(st: Style, s: string): string {
    if s == "" then "" else EscapeChar(st, s[0]) + EscapeAll(st, s[1..])
  }

  function PrintString(st: Style, s: string): string {
    ['"'] + EscapeAll(st, s) + ['"']
  }

  /** The number written by the four hexadecimal digits after `\u`. */
  function Hex4(s: string): (v: Option<nat>)
    ensures v.Some? ==> v.value < 0x10000 && |s| >= 4
  {
    if |s| < 4 || HexValue(s[0]).None? || HexValue(s[1]).None? || HexValue(s[2]).None? || HexValue(s[3]).None?
    then None
    else Some(HexValue(s[0]).value * 4096 + HexValue(s[1]).value * 256 + HexValue(s[2]).value * 16
              + HexValue(s[3]).value)
  }

  /** One escape sequence after its backslash: the character and what follows it. */
  function ParseEscape(s: string): (r: Option<(char, string)>)
    ensures r.Some? ==> |r.value.1| < |s|
  {
    if s == "" then None
    else if s[0] == '"' || s[0] == '\\' || s[0] == '/' then Some((s[0], s[1..]))
    else if s[0] == 'b' then Some((8 as char, s[1..]))
    else if s[0] == 'f' then Some((12 as char, s[1..]))
    else if s[0] == 'n' then Some((10 as char, s[1..]))
    else if s[0] == 'r' then Some((13 as char, s[1..]))
    else if s[0] == 't' then Some((9 as char, s[1..]))
    else if s[0] == 'u' && Hex4(s[1..]).Some? then
      var hi := Hex4(s[1..]).value;
      if hi < 0xD800 || 0xE000 <= hi then Some((hi as char, s[5..]))
      else if hi < 0xDC00 && |s| >= 7 && s[5] == '\\' && s[6] == 'u' && Hex4(s[7..]).Some? then
        var lo := Hex4(s[7..]).value;
        if 0xDC00 <= lo < 0xE000
        then Some(((0x10000 + (hi - 0xD800) * 0x400 + (lo - 0xDC00)) as char, s[11..]))
        else None
      else None
    else None
  }

  /** The rest of a string literal, up to and including its closing quote. */
  function ParseStringBody(s: string): (r: Option<(string, string)>)
    ensures r.Some? ==> |r.value.1| < |s|
    decreases |s|
  {
    if s == "" || s[0] as int < 0x20 then None
    else if s[0] == '"' then Some(("", s[1..]))
    else if s[0] == '\\' then
      match ParseEscape(s[1..])
      case None => None
      case Some((c, rest)) => Prepend(c, ParseStringBody(rest))
    else Prepend(s[0], ParseStringBody(s[1..]))
  }

  function Prepend(c: char, r: Option<(string, string)>): (q: Option<(string, string)>)
    ensures q.Some? ==> r.Some? && q.value.1 == r.value.1
  {
    match r
    case None => None
    case Some((s, rest)) => Some(([c] + s, rest))
  }

  lemma HexDigitValue(d: nat)
    requires d < 16
    ensures HexValue(HexDigit(d)) == Some(d)
  {
  }

  lemma HexPlaces(n: nat)
    requires n < 0x10000
    ensures n == n / 4096 * 4096 + n / 256 % 16 * 256 + n / 16 % 16 * 16 + n % 16 && n / 4096 < 16
  {
  }

  lemma Hex4Reads(t: string, a: nat, b: nat, c: nat, d: nat)
    requires a < 16 && b < 16 && c < 16 && d < 16 && |t| >= 4
    requires t[0] == HexDigit(a) && t[1] == HexDigit(b) && t[2] == HexDigit(c) && t[3] == HexDigit(d)
    ensures Hex4(t) == Some(a * 4096 + b * 256 + c * 16 + d)
  {
    HexDigitValue(a);
    HexDigitValue(b);
    HexDigitValue(c);
    HexDigitValue(d);
    hide HexDigit, HexValue;
  }

  lemma UnicodeEscapeValue(n: nat, rest: string)
    requires n < 0x10000
    ensures (UnicodeEscape(n) + rest)[..2] == ['\\', 'u']
    ensures Hex4((UnicodeEscape(n) + rest)[2..]) == Some(n)
    ensures (UnicodeEscape(n) + rest)[6..] == rest
  {
    hide HexDigit, HexValue, Hex4;
    var e := UnicodeEscape(n);
    var t := (e + rest)[2..];
    HexPlaces(n);
    Hex4Reads(t, n / 4096, n / 256 % 16, n / 16 % 16, n % 16);
    assert (e + rest)[..2] == e[..2] == ['\\', 'u'];
  }

  lemma EscapedByUnicode(n: nat, rest: string)
    requires n < 0xD800 || 0xE000 <= n < 0x10000
    ensures ParseStringBody(UnicodeEscape(n) + rest) == Prepend(n as char, ParseStringBody(rest))
  {
    var s := UnicodeEscape(n) + rest;
    UnicodeEscapeValue(n, rest);
    assert s[0] == '\\' && s[1] == 'u';
    assert s[1..][1..] == s[2..] && s[1..][5..] == s[6..];
  }

  lemma EscapedByPair(c: char, rest: string)
    requires 0x10000 <= c as int
    ensures ParseStringBody(EscapeChar(Indented, c) + rest) == Prepend(c, ParseStringBody(rest))
  {
    var n := c as int - 0x10000;
    assert n == 0x400 * (n / 0x400) + n % 0x400;
    var hi, lo := 0xD800 + n / 0x400, 0xDC00 + n % 0x400;
    var t := UnicodeEscape(lo) + rest;
    var s := UnicodeEscape(hi) + t;
    assert EscapeChar(Indented, c) + rest == s;
    UnicodeEscapeValue(hi, t);
    UnicodeEscapeValue(lo, rest);
    var u := s[1..];
    assert s[0] == '\\' && u[0] == 'u';
    assert u[1..] == s[2..];
    assert s[6..] == t;
    assert u[5] == t[0] && u[6] == t[1];
    assert u[7..] == t[2..] && u[11..] == t[6..];
    assert ParseEscape(u) == Some((c, rest));
  }

  lemma EscapeCharParses(st: Style, c: char, rest: string)
    ensures ParseStringBody(EscapeChar(st, c) + rest) == Prepend(c, ParseStringBody(rest))
  {
    hide UnicodeEscape, ParseStringBody;
    var n := c as int;
    var e := EscapeChar(st, c);
    if n >= 0x10000 && st == Indented {
      EscapedByPair(c, rest);
    } else if e == [c] {
      EscapedAsItself(c, rest);
    } else if e == UnicodeEscape(n) {
      EscapedByUnicode(n, rest);
    } else {
      EscapedByLetter(c, e[1], rest);
    }
  }

  lemma EscapedAsItself(c: char, rest: string)
    requires 0x20 <= c as int && c != '"' && c != '\\'
    ensures ParseStringBody([c] + rest) == Prepend(c, ParseStringBody(rest))
  {
    hide ParseEscape;
    var s := [c] + rest;
    assert s[0] == c && s[1..] == rest;
  }

  /** The two-character escapes of the writer. */
  predicate IsLetterEscape(c: char, l: char) {
    (c == l && (c == '"' || c == '\\')) || (c as int == 10 && l == 'n') || (c as int == 13 && l == 'r')
    || (c as int == 9 && l == 't') || (c as int == 8 && l == 'b') || (c as int == 12 && l == 'f')
  }

  lemma EscapedByLetter(c: char, l: char, rest: string)
    requires IsLetterEscape(c, l)
    ensures ParseStringBody(['\\', l] + rest) == Prepend(c, ParseStringBody(rest))
  {
    var s := ['\\', l] + rest;
    assert s[0] == '\\' && s[1..] == [l] + rest;
    assert ([l] + rest)[1..] == rest;
    LetterRead(c, l, rest);
    hide ParseEscape;
  }

  lemma LetterRead(c: char, l: char, rest: string)
    requires IsLetterEscape(c, l)
    ensures ParseEscape([l] + rest) == Some((c, rest))
  {
    hide Hex4;
    assert ([l] + rest)[1..] == rest;
  }

  lemma {:induction false} StringParses(st: Style, s: string, rest: string)
    ensures ParseStringBody(EscapeAll(st, s) + ['"'] + rest) == Some((s, rest))
  {
    if s == "" {
      var t := EscapeAll(st, s) + ['"'] + rest;
      assert t[0] == '"' && t[1..] == rest;
    } else {
      var tail := EscapeAll(st, s[1..]) + ['"'] + rest;
      assert EscapeAll(st, s) + ['"'] + rest == EscapeChar(st, s[0]) + tail;
      EscapeCharParses(st, s[0], tail);
      StringParses(st, s[1..], rest);
      assert [s[0]] + s[1..] == s;
    }
  }

  // ---------- cutting a number out of longer text ----------

  lemma {:induction false} DigitSpanTake(s: string, n: nat)
    requires n <= |s|
    ensures DigitSpan(s[..n]) == if DigitSpan(s) <= n then DigitSpan(s) else n
  {
    if n > 0 && '0' <= s[0] <= '9' {
      assert s[..n][1..] == s[1..][..n - 1];
      DigitSpanTake(s[1..], n - 1);
    }
  }

  lemma IntSpanTake(s: string, n: nat)
    requires 0 < IntSpan(s) <= n <= |s|
    ensures IntSpan(s[..n]) == IntSpan(s)
  {
    DigitSpanTake(s, n);
    if s[0] == '-' {
      assert s[..n][1..] == s[1..][..n - 1];
      DigitSpanTake(s[1..], n - 1);
    }
  }

  lemma FracSpanTake(s: string, n: nat)
    requires FracSpan(s) <= n <= |s|
    ensures FracSpan(s[..n]) == FracSpan(s)
  {
    if n > 0 {
      assert s[..n][1..] == s[1..][..n - 1];
      DigitSpanTake(s[1..], n - 1);
    }
  }

  lemma ExpSpanTake(s: string)
    ensures ExpSpan(s[..ExpSpan(s)]) == ExpSpan(s)
  {
    var n := ExpSpan(s);
    if n > 0 {
      var sign := if |s| > 1 && (s[1] == '+' || s[1] == '-') then 2 else 1;
      assert s[..n][sign..] == s[sign..][..n - sign];
      DigitSpanTake(s[sign..], n - sign);
    }
  }

  lemma NumberSpanIsNumber(s: string)
    requires NumberSpan(s) > 0
    ensures IsNumber(s[..NumberSpan(s)])
  {
    var n, i := NumberSpan(s), IntSpan(s);
    var f := FracSpan(s[i..]);
    IntSpanTake(s, n);
    assert s[..n][i..] == s[i..][..n - i];
    FracSpanTake(s[i..], n - i);
    assert s[..n][i + f..] == s[i + f..][..n - i - f];
    ExpSpanTake(s[i + f..]);
  }

  // ---------- trees ----------

  /** What the scanner sees: object members as a list, names possibly repeated. */
  datatype Tree =
    | TNull
    | TBool(b: bool)
    | TNum(lexeme: NumberLexeme)
    | TStr(s: string)
    | TArr(items: seq<Tree>)
    | TObj(members: seq<Member>)

  datatype Member = Member(name: string, value: Tree)

  function Spaces(n: nat): string {
    if n == 0 then "" else [' '] + Spaces(n - 1)
  }

  function Newline(st: Style, level: nat): string {
    if st == Compact then "" else [10 as char] + Spaces(2 * level)
  }

  function Colon(st: Style): string {
    if st == Compact then ":" else ": "
  }

  function Print(st: Style, level: nat, t: Tree): string
    decreases t
  {
    match t
    case TNull => "null"
    case TBool(b) => if b then "true" else "false"
    case TNum(lexeme) => lexeme
    case TStr(s) => PrintString(st, s)
    case TArr(items) =>
      if items == [] then "[]"
      else "[" + Newline(st, level + 1) + PrintItems(st, level + 1, items) + Newline(st, level) + "]"
    case TObj(members) =>
      if members == [] then "{}"
      else "{" + Newline(st, level + 1) + PrintMembers(st, level + 1, members) + Newline(st, level) + "}"
  }

  function PrintItems(st: Style, level: nat, items: seq<Tree>): string
    requires items != []
    decreases items
  {
    Print(st, level, items[0]) +
    if |items| == 1 then "" else "," + Newline(st, level) + PrintItems(st, level, items[1..])
  }

  function PrintMembers(st: Style, level: nat, members: seq<Member>): string
    requires members != []
    decreases members
  {
    PrintString(st, members[0].name) + Colon(st) + Print(st, level, members[0].value) +
    if |members| == 1 then "" else "," + Newline(st, level) + PrintMembers(st, level, members[1..])
  }

  predicate IsSpace(c: char) {
    c == ' ' || c as int == 9 || c as int == 10 || c as int == 13
  }

  function SkipSpace(s: string): (r: string)
    ensures |r| <= |s|
    ensures r != "" ==> !IsSpace(r[0])
  {
    if s != "" && IsSpace(s[0]) then SkipSpace(s[1..]) else s
  }

  predicate StartsWith(s: string, p: string) {
    |p| <= |s| && s[..|p|] == p
  }

  /** One value at the front of `s`: its tree and what follows it. */
  function ParseValue(s: string): (r: Option<(Tree, string)>)
    ensures r.Some? ==> |r.value.1| < |s|
    decreases |s|, 0
  {
    if s == "" then None
    else if s[0] == '"' then
      match ParseStringBody(s[1..])
      case None => None
      case Some((t, rest)) => Some((TStr(t), rest))
    else if s[0] == '[' then
      var q := SkipSpace(s[1..]);
      if q != "" && q[0] == ']' then Some((TArr([]), q[1..]))
      else
        match ParseItems(q)
        case None => None
        case Some((items, rest)) => Some((TArr(items), rest))
    else if s[0] == '{' then
      var q := SkipSpace(s[1..]);
      if q != "" && q[0] == '}' then Some((TObj([]), q[1..]))
      else
        match ParseMembers(q)
        case None => None
        case Some((members, rest)) => Some((TObj(members), rest))
    else if s[0] == 'n' then (if StartsWith(s, "null") then Some((TNull, s[4..])) else None)
    else if s[0] == 't' then (if StartsWith(s, "true") then Some((TBool(true), s[4..])) else None)
    else if s[0] == 'f' then (if StartsWith(s, "false") then Some((TBool(false), s[5..])) else None)
    else if NumberSpan(s) == 0 then None
    else
      NumberSpanIsNumber(s);
      Some((TNum(s[..NumberSpan(s)]), s[NumberSpan(s)..]))
  }

  /** The items of a non-empty array and its closing bracket. */
  function ParseItems(s: string): (r: Option<(seq<Tree>, string)>)
    ensures r.Some? ==> |r.value.1| < |s|
    decreases |s|, 1
  {
    match ParseValue(s)
    case None => None
    case Some((t, rest)) =>
      var q := SkipSpace(rest);
      if q == "" then None
      else if q[0] == ']' then Some(([t], q[1..]))
      else if q[0] != ',' then None
      else
        match ParseItems(SkipSpace(q[1..]))
        case None => None
        case Some((items, after)) => Some(([t] + items, after))
  }

  /** The members of a non-empty object and its closing brace. */
  function ParseMembers(s: string): (r: Option<(seq<Member>, string)>)
    ensures r.Some? ==> |r.value.1| < |s|
    decreases |s|, 1
  {
    if s == "" || s[0] != '"' then None
    else
      match ParseStringBody(s[1..])
      case None => None
      case Some((name, afterName)) =>
        var c := SkipSpace(afterName);
        if c == "" || c[0] != ':' then None
        else
          match ParseValue(SkipSpace(c[1..]))
          case None => None
          case Some((t, rest)) =>
            var q := SkipSpace(rest);
            if q == "" then None
            else if q[0] == '}' then Some(([Member(name, t)], q[1..]))
            else if q[0] != ',' then None
            else
              match ParseMembers(SkipSpace(q[1..]))
              case None => None
              case Some((members, after)) => Some(([Member(name, t)] + members, after))
  }

  /** A whole document: one value with nothing but white space around it. */
  function ParseText(s: string): Option<Tree> {
    match ParseValue(SkipSpace(s))
    case None => None
    case Some((t, rest)) => if SkipSpace(rest) == "" then Some(t) else None
  }

  // ---------- reading back what was written ----------

  /** A printed value starts with none of the characters the reader treats specially. */
  lemma PrintedStart(st: Style, level: nat, t: Tree)
    ensures var p := Print(st, level, t);
            p != "" && !IsSpace(p[0]) && p[0] != ']' && p[0] != '}'
  {
    if t.TNum? {
      assert IntSpan(t.lexeme) > 0;
    }
  }

  lemma {:induction false} SkipSpaces(n: nat, x: string)
    ensures SkipSpace(Spaces(n) + x) == SkipSpace(x)
  {
    if n == 0 {
      assert Spaces(0) + x == x;
    } else {
      assert (Spaces(n) + x)[1..] == Spaces(n - 1) + x;
      SkipSpaces(n - 1, x);
    }
  }

  lemma SkipNewline(st: Style, level: nat, x: string)
    ensures SkipSpace(Newline(st, level) + x) == SkipSpace(x)
  {
    if st == Compact {
      assert Newline(st, level) + x == x;
    } else {
      assert (Newline(st, level) + x)[1..] == Spaces(2 * level) + x;
      SkipSpaces(2 * level, x);
    }
  }

  lemma NewlineEndsNumber(st: Style, level: nat, x: string)
    requires EndsNumber(x)
    ensures EndsNumber(Newline(st, level) + x)
  {
    if st == Compact {
      assert Newline(st, level) + x == x;
    }
  }

  // The reader's branches, one lemma each, on any text.

  lemma ReadsNumber(s: string, lexeme: NumberLexeme, rest: string)
    requires s == lexeme + rest && NumberSpan(s) == |lexeme|
    requires lexeme[0] == '-' || '0' <= lexeme[0] <= '9'
    ensures ParseValue(s) == Some((TNum(lexeme), rest))
  {
    hide NumberSpan, ParseStringBody, ParseItems, ParseMembers, StartsWith;
    assert s[0] == lexeme[0];
    assert s[..|lexeme|] == lexeme && s[|lexeme|..] == rest;
  }

  lemma ReadsArray(s: string, q: string, items: seq<Tree>, rest: string)
    requires s != "" && s[0] == '[' && SkipSpace(s[1..]) == q
    requires q != "" && q[0] != ']' && ParseItems(q) == Some((items, rest))
    ensures ParseValue(s) == Some((TArr(items), rest))
  {
  }

  lemma ReadsObject(s: string, q: string, members: seq<Member>, rest: string)
    requires s != "" && s[0] == '{' && SkipSpace(s[1..]) == q
    requires q != "" && q[0] != '}' && ParseMembers(q) == Some((members, rest))
    ensures ParseValue(s) == Some((TObj(members), rest))
  {
  }

  lemma ReadsLastItem(s: string, t: Tree, close: string, rest: string)
    requires ParseValue(s) == Some((t, close)) && SkipSpace(close) == "]" + rest
    ensures ParseItems(s) == Some(([t], rest))
  {
    assert ("]" + rest)[1..] == rest;
  }

  lemma ReadsNextItem(s: string, t: Tree, tail: string, items: seq<Tree>, rest: string)
    requires ParseValue(s) == Some((t, tail)) && tail != "" && tail[0] == ',' && SkipSpace(tail) == tail
    requires ParseItems(SkipSpace(tail[1..])) == Some((items, rest))
    ensures ParseItems(s) == Some(([t] + items, rest))
  {
  }

  lemma ReadsLastMember(s: string, m: Member, c: string, close: string, rest: string)
    requires s != "" && s[0] == '"' && ParseStringBody(s[1..]) == Some((m.name, c))
    requires SkipSpace(c) == c && c != "" && c[0] == ':'
    requires ParseValue(SkipSpace(c[1..])) == Some((m.value, close)) && SkipSpace(close) == "}" + rest
    ensures ParseMembers(s) == Some(([m], rest))
  {
    assert ("}" + rest)[1..] == rest;
  }

  lemma ReadsNextMember(s: string, m: Member, c: string, tail: string, members: seq<Member>, rest: string)
    requires s != "" && s[0] == '"' && ParseStringBody(s[1..]) == Some((m.name, c))
    requires SkipSpace(c) == c && c != "" && c[0] == ':'
    requires ParseValue(SkipSpace(c[1..])) == Some((m.value, tail))
    requires tail != "" && tail[0] == ',' && SkipSpace(tail) == tail
    requires ParseMembers(SkipSpace(tail[1..])) == Some((members, rest))
    ensures ParseMembers(s) == Some(([m] + members, rest))
  {
  }

  // How printed text divides into those branches.

  lemma LiteralParses(st: Style, level: nat, t: Tree, rest: string)
    requires t.TNull? || t.TBool?
    ensures ParseValue(Print(st, level, t) + rest) == Some((t, rest))
  {
    var p := Print(st, level, t);
    var s := p + rest;
    assert s[..|p|] == p && s[|p|..] == rest;
    assert s[0] == p[0];
  }

  lemma NumberParses(lexeme: NumberLexeme, rest: string)
    requires EndsNumber(rest)
    ensures ParseValue(lexeme + rest) == Some((TNum(lexeme), rest))
  {
    NumberSpanStops(lexeme, rest);
    assert IntSpan(lexeme) > 0;
    ReadsNumber(lexeme + rest, lexeme, rest);
  }

  lemma QuotedParses(st: Style, level: nat, x: string, rest: string)
    ensures ParseValue(Print(st, level, TStr(x)) + rest) == Some((TStr(x), rest))
  {
    var s := PrintString(st, x) + rest;
    assert s[1..] == EscapeAll(st, x) + ['"'] + rest;
    StringParses(st, x, rest);
  }

  lemma EmptyParses(rest: string)
    ensures ParseValue("[]" + rest) == Some((TArr([]), rest))
    ensures ParseValue("{}" + rest) == Some((TObj([]), rest))
  {
    assert ("[]" + rest)[1..] == "]" + rest && ("]" + rest)[1..] == rest;
    assert ("{}" + rest)[1..] == "}" + rest && ("}" + rest)[1..] == rest;
  }

  lemma Bracketed(open: string, gap: string, body: string, gap2: string, close: string, rest: string)
    requires |open| == 1 && body != ""
    ensures var s := (open + gap + body + gap2 + close) + rest;
            var b := body + (gap2 + close + rest);
            s != "" && s[0] == open[0] && s[1..] == gap + b && b != "" && b[0] == body[0]
  {
  }

  /** Closing bracket after the last item. */
  lemma ClosesAfter(st: Style, outer: nat, close: string, rest: string)
    requires close == "]" || close == "}"
    ensures var c := Newline(st, outer) + close + rest;
            EndsNumber(c) && SkipSpace(c) == close + rest
  {
    assert Newline(st, outer) + close + rest == Newline(st, outer) + (close + rest);
    NewlineEndsNumber(st, outer, close + rest);
    SkipNewline(st, outer, close + rest);
  }

  /** A comma, a line break, and the next item. */
  lemma CommaBefore(st: Style, level: nat, more: string)
    requires more != "" && !IsSpace(more[0])
    ensures var c := "," + (Newline(st, level) + more);
            EndsNumber(c) && SkipSpace(c) == c && c[0] == ',' && SkipSpace(c[1..]) == more
  {
    var c := "," + (Newline(st, level) + more);
    assert c[1..] == Newline(st, level) + more;
    SkipNewline(st, level, more);
  }

  /** The name and colon of a member. */
  lemma NameParses(st: Style, name: string, p: string)
    requires p != "" && !IsSpace(p[0])
    ensures var s := PrintString(st, name) + (Colon(st) + p);
            s != "" && s[0] == '"' && ParseStringBody(s[1..]) == Some((name, Colon(st) + p))
    ensures var c := Colon(st) + p;
            SkipSpace(c) == c && c[0] == ':' && SkipSpace(c[1..]) == p
  {
    var c := Colon(st) + p;
    var s := PrintString(st, name) + c;
    assert s[1..] == EscapeAll(st, name) + ['"'] + c;
    StringParses(st, name, c);
    hide EscapeAll, ParseStringBody;
    if st == Compact {
      assert c[1..] == p;
    } else {
      assert c[1..] == [' '] + p;
      assert ([' '] + p)[1..] == p;
    }
  }

  lemma PrintedItemsStart(st: Style, level: nat, items: seq<Tree>, tail: string)
    requires items != []
    ensures var p := PrintItems(st, level, items) + tail;
            p != "" && !IsSpace(p[0]) && p[0] != ']'
  {
    PrintedStart(st, level, items[0]);
  }

  lemma PrintedMembersStart(st: Style, level: nat, members: seq<Member>, tail: string)
    requires members != []
    ensures var p := PrintMembers(st, level, members) + tail;
            p != "" && p[0] == '"' && !IsSpace(p[0])
  {
  }

  lemma {:induction false} PrintedParses(st: Style, level: nat, t: Tree, rest: string)
    requires EndsNumber(rest)
    ensures ParseValue(Print(st, level, t) + rest) == Some((t, rest))
    decreases t
  {
    match t
    case TNull => LiteralParses(st, level, t, rest);
    case TBool(_) => LiteralParses(st, level, t, rest);
    case TNum(lexeme) => NumberParses(lexeme, rest);
    case TStr(x) => QuotedParses(st, level, x, rest);
    case TArr(items) =>
      if items == [] {
        EmptyParses(rest);
      } else {
        ItemsParse(st, level + 1, items, level, rest);
        ArrayParses(st, level, items, rest);
      }
    case TObj(members) =>
      if members == [] {
        EmptyParses(rest);
      } else {
        MembersParse(st, level + 1, members, level, rest);
        ObjectParses(st, level, members, rest);
      }
  }

  lemma ArrayParses(st: Style, level: nat, items: seq<Tree>, rest: string)
    requires items != []
    requires ParseItems(PrintItems(st, level + 1, items) + (Newline(st, level) + "]" + rest)) == Some((items, rest))
    ensures ParseValue(Print(st, level, TArr(items)) + rest) == Some((TArr(items), rest))
  {
    var body := PrintItems(st, level + 1, items) + (Newline(st, level) + "]" + rest);
    PrintedItemsStart(st, level + 1, items, Newline(st, level) + "]" + rest);
    PrintedItemsStart(st, level + 1, items, "");
    assert PrintItems(st, level + 1, items) + "" == PrintItems(st, level + 1, items);
    Bracketed("[", Newline(st, level + 1), PrintItems(st, level + 1, items), Newline(st, level), "]", rest);
    SkipNewline(st, level + 1, body);
    ReadsArray(Print(st, level, TArr(items)) + rest, body, items, rest);
  }

  lemma ObjectParses(st: Style, level: nat, members: seq<Member>, rest: string)
    requires members != []
    requires ParseMembers(PrintMembers(st, level + 1, members) + (Newline(st, level) + "}" + rest))
             == Some((members, rest))
    ensures ParseValue(Print(st, level, TObj(members)) + rest) == Some((TObj(members), rest))
  {
    var body := PrintMembers(st, level + 1, members) + (Newline(st, level) + "}" + rest);
    assert PrintMembers(st, level + 1, members)[0] == '"';
    Bracketed("{", Newline(st, level + 1), PrintMembers(st, level + 1, members), Newline(st, level), "}", rest);
    SkipNewline(st, level + 1, body);
    ReadsObject(Print(st, level, TObj(members)) + rest, body, members, rest);
  }

  lemma {:induction false} ItemsParse(st: Style, level: nat, items: seq<Tree>, outer: nat, rest: string)
    requires items != []
    ensures ParseItems(PrintItems(st, level, items) + (Newline(st, outer) + "]" + rest)) == Some((items, rest))
    decreases items
  {
    var close := Newline(st, outer) + "]" + rest;
    if |items| == 1 {
      ClosesAfter(st, outer, "]", rest);
      PrintedParses(st, level, items[0], close);
      assert PrintItems(st, level, items) == Print(st, level, items[0]);
      ReadsLastItem(PrintItems(st, level, items) + close, items[0], close, rest);
      assert items == [items[0]];
    } else {
      var more := PrintItems(st, level, items[1..]) + close;
      var tail := "," + (Newline(st, level) + more);
      PrintedItemsStart(st, level, items[1..], close);
      CommaBefore(st, level, more);
      PrintedParses(st, level, items[0], tail);
      ItemsParse(st, level, items[1..], outer, rest);
      ItemsDivide(st, level, items, close);
      ReadsNextItem(PrintItems(st, level, items) + close, items[0], tail, items[1..], rest);
      assert items == [items[0]] + items[1..];
    }
  }

  lemma ItemsDivide(st: Style, level: nat, items: seq<Tree>, close: string)
    requires |items| > 1
    ensures PrintItems(st, level, items) + close
            == Print(st, level, items[0]) + ("," + (Newline(st, level) + (PrintItems(st, level, items[1..]) + close)))
  {
    hide Print, Newline;
  }

  lemma MembersDivide(st: Style, level: nat, members: seq<Member>, close: string)
    requires members != []
    ensures var m := members[0];
            var tail := if |members| == 1 then close
                        else "," + (Newline(st, level) + (PrintMembers(st, level, members[1..]) + close));
            PrintMembers(st, level, members) + close
            == PrintString(st, m.name) + (Colon(st) + (Print(st, level, m.value) + tail))
  {
    hide Print, PrintString, Colon, Newline;
  }

  lemma {:induction false} MembersParse(st: Style, level: nat, members: seq<Member>, outer: nat, rest: string)
    requires members != []
    ensures ParseMembers(PrintMembers(st, level, members) + (Newline(st, outer) + "}" + rest))
            == Some((members, rest))
    decreases members
  {
    hide ParseMembers, ParseValue, ParseStringBody, SkipSpace, Print, PrintMembers, PrintString, Newline, Colon;
    var close := Newline(st, outer) + "}" + rest;
    var m := members[0];
    MembersDivide(st, level, members, close);
    PrintedStart(st, level, m.value);
    if |members| == 1 {
      ClosesAfter(st, outer, "}", rest);
      var p := Print(st, level, m.value) + close;
      NameParses(st, m.name, p);
      PrintedParses(st, level, m.value, close);
      ReadsLastMember(PrintMembers(st, level, members) + close, m, Colon(st) + p, close, rest);
      assert members == [m];
    } else {
      var more := PrintMembers(st, level, members[1..]) + close;
      var tail := "," + (Newline(st, level) + more);
      PrintedMembersStart(st, level, members[1..], close);
      CommaBefore(st, level, more);
      var p := Print(st, level, m.value) + tail;
      NameParses(st, m.name, p);
      PrintedParses(st, level, m.value, tail);
      MembersParse(st, level, members[1..], outer, rest);
      ReadsNextMember(PrintMembers(st, level, members) + close, m, Colon(st) + p, tail, members[1..], rest);
      assert members == [m] + members[1..];
    }
  }

  /** Reading a written document gives back the tree, member order and repetitions included. */
  lemma TextRoundTrip(st: Style, t: Tree, end: string)
    requires SkipSpace(end) == "" && EndsNumber(end)
    ensures ParseText(Print(st, 0, t) + end) == Some(t)
  {
    PrintedStart(st, 0, t);
    PrintedParses(st, 0, t, end);
  }

  /** Distinct trees have distinct texts, whatever the style. */
  lemma PrintInjective(st: Style, t: Tree, u: Tree)
    requires Print(st, 0, t) == Print(st, 0, u)
    ensures t == u
  {
    TextRoundTrip(st, t, "");
    TextRoundTrip(st, u, "");
  }
}
