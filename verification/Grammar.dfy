/**
  JSON text without reference to reader or writer (RFC 8259): the forms a document can take.  The
  reader accepts exactly these, and the writer's escapes are spelled out character by character.
 */
module Grammar {
  import opened Wrappers
  import opened Text
  import opened JsonText

  // ---------- what the writer makes of a character ----------

  const HEX: string := "0123456789abcdef"

  lemma HexDigitIs(d: nat)
    requires d < 16
    ensures HexDigit(d) == HEX[d]
  {
  }

  /** The reader takes hexadecimal digits of either case. */
  lemma HexValueMeans(c: char, d: nat)
    requires d < 16
    ensures HexValue(c) == Some(d) <==> c == HEX[d] || c == "0123456789ABCDEF"[d]
  {
  }

  lemma OneCharacter(st: Style, c: char)
    ensures EscapeAll(st, [c]) == EscapeChar(st, c)
  {
    assert [c][1..] == "";
  }

  /** The escapes of a text are those of its parts, one after the other. */
  lemma {:induction false} EscapesJoin(st: Style, s: string, t: string)
    ensures EscapeAll(st, s + t) == EscapeAll(st, s) + EscapeAll(st, t)
  {
    if s == "" {
      assert s + t == t;
    } else {
      assert (s + t)[1..] == s[1..] + t;
      EscapesJoin(st, s[1..], t);
    }
  }

  /**
    Canonical text (`ensure_ascii=False`): quote, backslash and five control characters have their
    two-character form, other control characters the six-character one, and everything else,
    whatever its code point, stands for itself.
   */
  lemma CompactCharacter(c: char)
    ensures var n := c as int;
            EscapeAll(Compact, [c]) ==
            if c == '"' then "\\\""
            else if c == '\\' then "\\\\"
            else if n == 8 then "\\b"
            else if n == 9 then "\\t"
            else if n == 10 then "\\n"
            else if n == 12 then "\\f"
            else if n == 13 then "\\r"
            else if n < 0x20 then "\\u00" + [HEX[n / 16], HEX[n % 16]]
            else [c]
  {
    OneCharacter(Compact, c);
    var n := c as int;
    if n < 0x20 {
      HexDigitIs(0);
      HexDigitIs(n / 16);
      HexDigitIs(n % 16);
      assert n / 16 % 16 == n / 16;
    }
  }

  function FourDigits(n: nat): string
    requires n < 0x10000
  {
    [HEX[n / 4096], HEX[n / 256 % 16], HEX[n / 16 % 16], HEX[n % 16]]
  }

  lemma UnicodeEscapeIs(n: nat)
    requires n < 0x10000
    ensures UnicodeEscape(n) == "\\u" + FourDigits(n)
  {
    HexDigitIs(n / 4096);
    HexDigitIs(n / 256 % 16);
    HexDigitIs(n / 16 % 16);
    HexDigitIs(n % 16);
  }

  /** File text (`ensure_ascii=True`): what is not printable ASCII is written as UTF-16 code units. */
  lemma IndentedCharacter(c: char)
    ensures var n := c as int;
            c == '"' || c == '\\' || n in {8, 9, 10, 12, 13} ==>
              EscapeAll(Indented, [c]) == EscapeAll(Compact, [c])
    ensures ' ' <= c <= '~' && c != '"' && c != '\\' ==> EscapeAll(Indented, [c]) == [c]
    ensures var n := c as int;
            n !in {8, 9, 10, 12, 13} && !(' ' <= c <= '~') ==>
              EscapeAll(Indented, [c]) ==
              if n < 0x10000 then "\\u" + FourDigits(n)
              else
                "\\u" + FourDigits(0xD800 + (n - 0x10000) / 0x400)
                + "\\u" + FourDigits(0xDC00 + (n - 0x10000) % 0x400)
  {
    OneCharacter(Indented, c);
    OneCharacter(Compact, c);
    var n := c as int;
    if n < 0x10000 {
      UnicodeEscapeIs(n);
    } else {
      UnicodeEscapeIs(0xD800 + (n - 0x10000) / 0x400);
      UnicodeEscapeIs(0xDC00 + (n - 0x10000) % 0x400);
    }
  }

  predicate Ascii(s: string) {
    forall i :: 0 <= i < |s| ==> s[i] as int < 0x80
  }

  lemma UnicodeEscapeAscii(n: nat)
    requires n < 0x10000
    ensures Ascii(UnicodeEscape(n))
  {
  }

  lemma {:induction false} IndentedIsAscii(s: string)
    ensures Ascii(EscapeAll(Indented, s))
  {
    if s != "" {
      var n := s[0] as int;
      hide UnicodeEscape;
      if n < 0x10000 {
        UnicodeEscapeAscii(n);
      } else {
        UnicodeEscapeAscii(0xD800 + (n - 0x10000) / 0x400);
        UnicodeEscapeAscii(0xDC00 + (n - 0x10000) % 0x400);
      }
      IndentedIsAscii(s[1..]);
    }
  }

  /** A string literal is its escapes between quotes. */
  lemma QuotedIs(st: Style, s: string)
    ensures PrintString(st, s) == "\"" + EscapeAll(st, s) + "\""
  {
  }

  // ---------- numbers ----------

  /** RFC 8259, section 6: minus, whole part, fraction digits, exponent sign and digits. */
  datatype NumberParts = NumberParts(minus: bool, whole: string, frac: Option<string>, exp: Option<(string, string)>)

  predicate ExpMark(mark: string) {
    mark in {"e", "E", "e+", "E+", "e-", "E-"}
  }

  predicate NumberFits(n: NumberParts) {
    && n.whole != "" && Digits(n.whole) && (n.whole[0] == '0' ==> |n.whole| == 1)
    && (n.frac.Some? ==> n.frac.value != "" && Digits(n.frac.value))
    && (n.exp.Some? ==> ExpMark(n.exp.value.0) && n.exp.value.1 != "" && Digits(n.exp.value.1))
  }

  function FracText(n: NumberParts): string {
    if n.frac.Some? then "." + n.frac.value else ""
  }

  function ExpText(n: NumberParts): string {
    if n.exp.Some? then n.exp.value.0 + n.exp.value.1 else ""
  }

  function NumberText(n: NumberParts): string {
    (if n.minus then "-" else "") + n.whole + FracText(n) + ExpText(n)
  }

  lemma {:induction false} SpanIsDigits(s: string)
    ensures Digits(s[..DigitSpan(s)])
    ensures DigitSpan(s) < |s| ==> !('0' <= s[DigitSpan(s)] <= '9')
  {
    if s != "" && '0' <= s[0] <= '9' {
      SpanIsDigits(s[1..]);
      assert s[..DigitSpan(s)] == [s[0]] + s[1..][..DigitSpan(s[1..])];
    }
  }

  lemma WholeSpan(whole: string, rest: string)
    requires whole != "" && Digits(whole) && (whole[0] == '0' ==> |whole| == 1)
    requires rest == "" || !('0' <= rest[0] <= '9')
    ensures NatSpan(whole + rest) == |whole|
  {
    DigitsSpan(whole);
    DigitSpanStops(whole, rest);
  }

  lemma FracSpans(n: NumberParts)
    requires NumberFits(n)
    ensures FracSpan(FracText(n) + ExpText(n)) == |FracText(n)|
  {
    var f, e := FracText(n), ExpText(n);
    if n.frac.Some? {
      assert (f + e)[1..] == n.frac.value + e;
      DigitsSpan(n.frac.value);
      DigitSpanStops(n.frac.value, e);
    } else {
      assert f + e == e;
    }
  }

  lemma ExpSpans(n: NumberParts)
    requires NumberFits(n)
    ensures ExpSpan(ExpText(n)) == |ExpText(n)|
  {
    if n.exp.Some? {
      var mark, digits := n.exp.value.0, n.exp.value.1;
      var e := mark + digits;
      DigitsSpan(digits);
      assert e[|mark|..] == digits;
      assert e[0] == mark[0] && e[1] == if |mark| == 2 then mark[1] else digits[0];
    }
  }

  lemma Quarters(a: string, b: string, c: string, d: string)
    ensures var s := a + b + c + d;
            s[|a|..] == b + (c + d) && s[|a| + |b|..] == c + d && s[|a| + |b| + |c|..] == d
  {
  }

  lemma IntSpans(n: NumberParts)
    requires NumberFits(n)
    ensures IntSpan(NumberText(n)) == (if n.minus then 1 else 0) + |n.whole|
  {
    var rest := FracText(n) + ExpText(n);
    var s := NumberText(n);
    WholeSpan(n.whole, rest);
    hide NatSpan, FracText, ExpText, Digits;
    Quarters(if n.minus then "-" else "", n.whole, FracText(n), ExpText(n));
    if !n.minus {
      assert s[0..] == s;
    }
  }

  lemma PartsAreNumber(n: NumberParts)
    requires NumberFits(n)
    ensures IsNumber(NumberText(n))
  {
    IntSpans(n);
    FracSpans(n);
    ExpSpans(n);
    hide IntSpan, FracSpan, ExpSpan, FracText, ExpText, Digits;
    Quarters(if n.minus then "-" else "", n.whole, FracText(n), ExpText(n));
  }

  lemma IntPart(s: string) returns (minus: bool, whole: string)
    requires IntSpan(s) > 0
    ensures s[..IntSpan(s)] == (if minus then "-" else "") + whole
    ensures whole != "" && Digits(whole) && (whole[0] == '0' ==> |whole| == 1)
  {
    minus := s[0] == '-';
    var t := if minus then s[1..] else s;
    SpanIsDigits(t);
    whole := t[..NatSpan(t)];
  }

  lemma FracPart(s: string) returns (frac: Option<string>)
    ensures s[..FracSpan(s)] == if frac.Some? then "." + frac.value else ""
    ensures frac.Some? ==> frac.value != "" && Digits(frac.value)
  {
    if FracSpan(s) == 0 {
      frac := None;
    } else {
      SpanIsDigits(s[1..]);
      frac := Some(s[1..][..DigitSpan(s[1..])]);
      assert s[..FracSpan(s)] == [s[0]] + frac.value;
    }
  }

  lemma ExpPart(s: string) returns (exp: Option<(string, string)>)
    ensures s[..ExpSpan(s)] == if exp.Some? then exp.value.0 + exp.value.1 else ""
    ensures exp.Some? ==> ExpMark(exp.value.0) && exp.value.1 != "" && Digits(exp.value.1)
  {
    if ExpSpan(s) == 0 {
      exp := None;
    } else {
      var sign := if |s| > 1 && (s[1] == '+' || s[1] == '-') then 2 else 1;
      SpanIsDigits(s[sign..]);
      var mark, digits := s[..sign], s[sign..][..DigitSpan(s[sign..])];
      assert mark == if sign == 2 then [s[0], s[1]] else [s[0]];
      assert s[..ExpSpan(s)] == mark + digits;
      exp := Some((mark, digits));
    }
  }

  lemma NumberHasParts(s: string) returns (n: NumberParts)
    requires IsNumber(s)
    ensures NumberFits(n) && NumberText(n) == s
  {
    var i := IntSpan(s);
    var f := FracSpan(s[i..]);
    var e := ExpSpan(s[i + f..]);
    hide IntSpan, FracSpan, ExpSpan, Digits, NumberText, FracText, ExpText, ExpMark;
    var minus, whole := IntPart(s);
    var frac := FracPart(s[i..]);
    var exp := ExpPart(s[i + f..]);
    Thirds(s, i, f, e);
    n := NumberParts(minus, whole, frac, exp);
    hide NumberFits;
    Assembled(n, s[..i], s[i..][..f], s[i + f..][..e]);
  }

  lemma Thirds(s: string, i: nat, f: nat, e: nat)
    requires i + f + e == |s|
    ensures s == s[..i] + s[i..][..f] + s[i + f..][..e]
  {
  }

  lemma Assembled(n: NumberParts, a: string, b: string, c: string)
    requires a == (if n.minus then "-" else "") + n.whole
    requires b == if n.frac.Some? then "." + n.frac.value else ""
    requires c == if n.exp.Some? then n.exp.value.0 + n.exp.value.1 else ""
    requires n.whole != "" && Digits(n.whole) && (n.whole[0] == '0' ==> |n.whole| == 1)
    requires n.frac.Some? ==> n.frac.value != "" && Digits(n.frac.value)
    requires n.exp.Some? ==> ExpMark(n.exp.value.0) && n.exp.value.1 != "" && Digits(n.exp.value.1)
    ensures NumberFits(n) && NumberText(n) == a + b + c
  {
    hide Digits, ExpMark;
  }

  /** The numbers of the reader are those of the grammar. */
  lemma NumberGrammar(s: string)
    ensures IsNumber(s) <==> exists n :: NumberFits(n) && NumberText(n) == s
  {
    if IsNumber(s) {
      var n := NumberHasParts(s);
    }
    if n :| NumberFits(n) && NumberText(n) == s {
      PartsAreNumber(n);
    }
  }

  // ---------- strings ----------

  /** The ways to spell one character. */
  datatype Piece =
    | Plain(c: char)
    | Short(letter: char)
    | Unicode(digits: string)
    | Pair(high: string, low: string)

  /** What the two-character escapes stand for. */
  function ShortMeaning(letter: char): Option<char> {
    if letter == '"' || letter == '\\' || letter == '/' then Some(letter)
    else if letter == 'b' then Some(8 as char)
    else if letter == 'f' then Some(12 as char)
    else if letter == 'n' then Some(10 as char)
    else if letter == 'r' then Some(13 as char)
    else if letter == 't' then Some(9 as char)
    else None
  }

  predicate PieceFits(q: Piece) {
    match q
    case Plain(c) => 0x20 <= c as int && c != '"' && c != '\\'
    case Short(letter) => ShortMeaning(letter).Some?
    case Unicode(digits) =>
      |digits| == 4 && Hex4(digits).Some? && !(0xD800 <= Hex4(digits).value < 0xE000)
    case Pair(high, low) =>
      |high| == 4 && Hex4(high).Some? && 0xD800 <= Hex4(high).value < 0xDC00 &&
      |low| == 4 && Hex4(low).Some? && 0xDC00 <= Hex4(low).value < 0xE000
  }

  function PieceText(q: Piece): string {
    match q
    case Plain(c) => [c]
    case Short(letter) => ['\\', letter]
    case Unicode(digits) => "\\u" + digits
    case Pair(high, low) => "\\u" + high + "\\u" + low
  }

  function PieceChar(q: Piece): char
    requires PieceFits(q)
  {
    match q
    case Plain(c) => c
    case Short(letter) => ShortMeaning(letter).value
    case Unicode(digits) => Hex4(digits).value as char
    case Pair(high, low) => (0x10000 + (Hex4(high).value - 0xD800) * 0x400 + (Hex4(low).value - 0xDC00)) as char
  }

  predicate PiecesFit(qs: seq<Piece>) {
    forall i :: 0 <= i < |qs| ==> PieceFits(qs[i])
  }

  function PiecesText(qs: seq<Piece>): string {
    if qs == [] then "" else PieceText(qs[0]) + PiecesText(qs[1..])
  }

  function PiecesChars(qs: seq<Piece>): string
    requires PiecesFit(qs)
  {
    if qs == [] then "" else [PieceChar(qs[0])] + PiecesChars(qs[1..])
  }

  lemma Hex4Front(s: string, t: string)
    requires |s| == 4
    ensures Hex4(s + t) == Hex4(s)
  {
  }

  lemma ShortReads(letter: char, t: string)
    requires ShortMeaning(letter).Some?
    ensures ParseEscape([letter] + t) == Some((ShortMeaning(letter).value, t))
  {
    hide Hex4;
    assert ([letter] + t)[1..] == t;
  }

  lemma UnicodeReads(digits: string, t: string)
    requires PieceFits(Unicode(digits))
    ensures ParseEscape("u" + digits + t) == Some((PieceChar(Unicode(digits)), t))
  {
    hide HexValue;
    var s := "u" + digits + t;
    assert s[1..] == digits + t && s[5..] == t;
    Hex4Front(digits, t);
    hide Hex4;
  }

  lemma PairReads(high: string, low: string, t: string)
    requires PieceFits(Pair(high, low))
    ensures ParseEscape("u" + high + "\\u" + low + t) == Some((PieceChar(Pair(high, low)), t))
  {
    hide HexValue;
    var s := "u" + high + "\\u" + low + t;
    assert s[1..] == high + ("\\u" + low + t) && s[7..] == low + t && s[11..] == t;
    assert s[5] == '\\' && s[6] == 'u';
    Hex4Front(high, "\\u" + low + t);
    Hex4Front(low, t);
    hide Hex4;
  }

  lemma PieceReads(q: Piece, t: string)
    requires PieceFits(q)
    ensures ParseStringBody(PieceText(q) + t) == Prepend(PieceChar(q), ParseStringBody(t))
  {
    hide Hex4, ShortMeaning, ParseStringBody, ParseEscape;
    var s := PieceText(q) + t;
    match q
    case Plain(c) => EscapedAsItself(c, t);
    case Short(letter) =>
      ShortReads(letter, t);
      assert s[1..] == [letter] + t;
      EscapeRead(s, PieceChar(q), t);
    case Unicode(digits) =>
      UnicodeReads(digits, t);
      assert s[1..] == "u" + digits + t;
      EscapeRead(s, PieceChar(q), t);
    case Pair(high, low) =>
      PairReads(high, low, t);
      assert s[1..] == "u" + high + "\\u" + low + t;
      EscapeRead(s, PieceChar(q), t);
  }

  lemma EscapeRead(s: string, c: char, t: string)
    requires s != "" && s[0] == '\\' && ParseEscape(s[1..]) == Some((c, t))
    ensures ParseStringBody(s) == Prepend(c, ParseStringBody(t))
  {
    hide ParseEscape;
  }

  lemma {:induction false} PiecesRead(qs: seq<Piece>, t: string)
    requires PiecesFit(qs)
    ensures ParseStringBody(PiecesText(qs) + "\"" + t) == Some((PiecesChars(qs), t))
  {
    if qs == [] {
      var s := "\"" + t;
      assert PiecesText(qs) + "\"" + t == s && s[1..] == t;
    } else {
      var rest := PiecesText(qs[1..]) + "\"" + t;
      hide PieceText, PieceChar, ParseStringBody, PieceFits;
      PiecesRead(qs[1..], t);
      PieceReads(qs[0], rest);
      assert PiecesText(qs) + "\"" + t == PieceText(qs[0]) + rest;
      assert PiecesChars(qs) == [PieceChar(qs[0])] + PiecesChars(qs[1..]);
    }
  }

  /** The piece is what the escape reads. */
  predicate Spells(q: Piece, s: string)
    requires ParseEscape(s).Some?
  {
    PieceFits(q) && PieceChar(q) == ParseEscape(s).value.0 && ['\\'] + s == PieceText(q) + ParseEscape(s).value.1
  }

  lemma ShortPiece(s: string)
    requires ParseEscape(s).Some? && s[0] != 'u'
    ensures Spells(Short(s[0]), s)
  {
    hide Hex4;
    assert s == [s[0]] + s[1..];
  }

  lemma UnicodePiece(s: string)
    requires ParseEscape(s).Some? && s[0] == 'u' && !(0xD800 <= Hex4(s[1..]).value < 0xE000)
    ensures Spells(Unicode(s[1..5]), s)
  {
    HexFront(s, 1);
    hide Hex4;
    assert s == "u" + s[1..5] + s[5..];
    assert ['\\'] + s == ("\\u" + s[1..5]) + s[5..];
  }

  lemma PairPiece(s: string)
    requires ParseEscape(s).Some? && s[0] == 'u' && 0xD800 <= Hex4(s[1..]).value < 0xE000
    ensures |s| >= 11 && Spells(Pair(s[1..5], s[7..11]), s)
  {
    HexFront(s, 1);
    HexFront(s, 7);
    hide Hex4;
    PairCut(s);
    assert ['\\'] + s == ("\\u" + s[1..5] + "\\u" + s[7..11]) + s[11..];
  }

  lemma EscapePiece(s: string) returns (q: Piece)
    requires ParseEscape(s).Some?
    ensures Spells(q, s)
  {
    hide Spells;
    if s[0] != 'u' {
      ShortPiece(s);
      q := Short(s[0]);
    } else {
      EscapeIsHex(s);
      hide ParseEscape, Hex4;
      if 0xD800 <= Hex4(s[1..]).value < 0xE000 {
        PairPiece(s);
        q := Pair(s[1..5], s[7..11]);
      } else {
        UnicodePiece(s);
        q := Unicode(s[1..5]);
      }
    }
  }

  lemma EscapeIsHex(s: string)
    requires ParseEscape(s).Some? && s[0] == 'u'
    ensures Hex4(s[1..]).Some? && |s| >= 5
  {
    hide Hex4;
  }

  lemma HexFront(s: string, i: nat)
    requires i <= |s| && Hex4(s[i..]).Some?
    ensures i + 4 <= |s| && Hex4(s[i..i + 4]) == Hex4(s[i..])
  {
    hide HexValue;
    assert s[i..] == s[i..i + 4] + s[i + 4..];
    Hex4Front(s[i..i + 4], s[i + 4..]);
  }

  lemma PairCut(s: string)
    requires |s| >= 11 && s[0] == 'u' && s[5] == '\\' && s[6] == 'u'
    ensures s == "u" + s[1..5] + "\\u" + s[7..11] + s[11..]
  {
  }

  lemma {:induction false} StringHasPieces(s: string) returns (qs: seq<Piece>)
    requires ParseStringBody(s).Some?
    ensures PiecesFit(qs) && PiecesChars(qs) == ParseStringBody(s).value.0
    ensures s == PiecesText(qs) + "\"" + ParseStringBody(s).value.1
    decreases |s|
  {
    hide ParseEscape, PieceText, PieceChar, PieceFits;
    if s[0] == '"' {
      qs := [];
    } else if s[0] == '\\' {
      var q := EscapePiece(s[1..]);
      var (c, rest) := ParseEscape(s[1..]).value;
      var more := StringHasPieces(rest);
      qs := [q] + more;
      assert qs[1..] == more;
      assert s == ['\\'] + s[1..];
    } else {
      var more := StringHasPieces(s[1..]);
      qs := [Plain(s[0])] + more;
      PlainIs(s[0]);
      assert qs[1..] == more;
      assert s == [s[0]] + s[1..];
    }
  }

  lemma PlainIs(c: char)
    requires 0x20 <= c as int && c != '"' && c != '\\'
    ensures PieceFits(Plain(c)) && PieceText(Plain(c)) == [c] && PieceChar(Plain(c)) == c
  {
  }

  // ---------- values and documents ----------

  /** A value as it can be written, white space and escapes included. */
  datatype Form =
    | FNull
    | FBool(b: bool)
    | FNumber(lexeme: NumberLexeme)
    | FString(pieces: seq<Piece>)
    | FEmptyArray(gap: string)
    | FArray(items: seq<FormItem>)
    | FEmptyObject(gap: string)
    | FObject(members: seq<FormMember>)

  datatype FormItem = FormItem(before: string, value: Form, after: string)

  datatype FormMember =
    FormMember(before: string, name: seq<Piece>, afterName: string, beforeValue: string, value: Form, after: string)

  predicate Blank(s: string) {
    forall i :: 0 <= i < |s| ==> s[i] as int in {0x20, 0x09, 0x0A, 0x0D}
  }

  predicate FormFits(f: Form)
    decreases f
  {
    match f
    case FString(pieces) => PiecesFit(pieces)
    case FEmptyArray(gap) => Blank(gap)
    case FArray(items) => items != [] && ItemsFit(items)
    case FEmptyObject(gap) => Blank(gap)
    case FObject(members) => members != [] && MembersFit(members)
    case _ => true
  }

  predicate ItemsFit(items: seq<FormItem>)
    decreases items
  {
    items == [] ||
    (Blank(items[0].before) && FormFits(items[0].value) && Blank(items[0].after) && ItemsFit(items[1..]))
  }

  predicate MembersFit(members: seq<FormMember>)
    decreases members
  {
    members == [] ||
    var m := members[0];
    Blank(m.before) && PiecesFit(m.name) && Blank(m.afterName) && Blank(m.beforeValue) && FormFits(m.value) &&
    Blank(m.after) && MembersFit(members[1..])
  }

  function Literal(qs: seq<Piece>): string {
    "\"" + PiecesText(qs) + "\""
  }

  function FormText(f: Form): string
    decreases f
  {
    match f
    case FNull => "null"
    case FBool(b) => if b then "true" else "false"
    case FNumber(lexeme) => lexeme
    case FString(pieces) => Literal(pieces)
    case FEmptyArray(gap) => "[" + gap + "]"
    case FArray(items) => "[" + ItemsText(items) + "]"
    case FEmptyObject(gap) => "{" + gap + "}"
    case FObject(members) => "{" + MembersText(members) + "}"
  }

  function ItemsText(items: seq<FormItem>): string
    decreases items
  {
    if items == [] then ""
    else
      items[0].before + FormText(items[0].value) + items[0].after +
      if |items| == 1 then "" else "," + ItemsText(items[1..])
  }

  function MembersText(members: seq<FormMember>): string
    decreases members
  {
    if members == [] then ""
    else
      var m := members[0];
      m.before + Literal(m.name) + m.afterName + ":" + m.beforeValue + FormText(m.value) + m.after +
      if |members| == 1 then "" else "," + MembersText(members[1..])
  }

  function FormTree(f: Form): Tree
    requires FormFits(f)
    decreases f
  {
    match f
    case FNull => TNull
    case FBool(b) => TBool(b)
    case FNumber(lexeme) => TNum(lexeme)
    case FString(pieces) => TStr(PiecesChars(pieces))
    case FEmptyArray(_) => TArr([])
    case FArray(items) => TArr(ItemTrees(items))
    case FEmptyObject(_) => TObj([])
    case FObject(members) => TObj(MemberTrees(members))
  }

  function ItemTrees(items: seq<FormItem>): seq<Tree>
    requires ItemsFit(items)
    decreases items
  {
    if items == [] then [] else [FormTree(items[0].value)] + ItemTrees(items[1..])
  }

  function MemberTrees(members: seq<FormMember>): seq<Member>
    requires MembersFit(members)
    decreases members
  {
    if members == [] then []
    else [Member(PiecesChars(members[0].name), FormTree(members[0].value))] + MemberTrees(members[1..])
  }

  // ---------- every form is read ----------

  lemma {:induction false} SkipBlank(gap: string, t: string)
    requires Blank(gap)
    ensures SkipSpace(gap + t) == SkipSpace(t)
  {
    if gap == "" {
      assert gap + t == t;
    } else {
      assert (gap + t)[1..] == gap[1..] + t;
      SkipBlank(gap[1..], t);
    }
  }

  lemma SkipTo(gap: string, t: string)
    requires Blank(gap) && t != "" && !IsSpace(t[0])
    ensures SkipSpace(gap + t) == t
  {
    SkipBlank(gap, t);
  }

  /** A value starts with none of the characters the reader treats specially. */
  lemma FormStart(f: Form, t: string)
    requires FormFits(f)
    ensures var s := FormText(f) + t; s != "" && !IsSpace(s[0]) && s[0] != ']' && s[0] != '}'
    ensures FormText(f) != ""
  {
    hide ItemsText, MembersText, PiecesText, IntSpan;
    if f.FNumber? {
      LexemeStart(f.lexeme);
    }
  }

  lemma LexemeStart(lexeme: NumberLexeme)
    ensures lexeme != "" && (lexeme[0] == '-' || '0' <= lexeme[0] <= '9')
  {
    assert IntSpan(lexeme) > 0;
  }

  lemma {:induction false} FormReads(f: Form, rest: string)
    requires FormFits(f) && EndsNumber(rest)
    ensures ParseValue(FormText(f) + rest) == Some((FormTree(f), rest))
    decreases f, 1
  {
    hide ParseItems, ParseMembers, ItemsText, MembersText, PiecesText, ItemTrees, MemberTrees;
    match f
    case FNull => LiteralParses(Compact, 0, TNull, rest);
    case FBool(b) => LiteralParses(Compact, 0, TBool(b), rest);
    case FNumber(lexeme) => NumberParses(lexeme, rest);
    case FString(pieces) => LiteralReads(pieces, rest);
    case FEmptyArray(gap) => EmptyReads("[", gap, "]", rest);
    case FEmptyObject(gap) => EmptyReads("{", gap, "}", rest);
    case FArray(items) =>
      ItemsRead(items, rest);
      ArrayReads(items, rest);
    case FObject(members) =>
      MembersRead(members, rest);
      ObjectReads(members, rest);
  }

  lemma LiteralReads(pieces: seq<Piece>, rest: string)
    requires PiecesFit(pieces)
    ensures ParseStringBody((Literal(pieces) + rest)[1..]) == Some((PiecesChars(pieces), rest))
    ensures ParseValue(Literal(pieces) + rest) == Some((TStr(PiecesChars(pieces)), rest))
  {
    hide PiecesText;
    var s := Literal(pieces) + rest;
    assert s[1..] == PiecesText(pieces) + "\"" + rest;
    PiecesRead(pieces, rest);
  }

  lemma EmptyReads(open: string, gap: string, close: string, rest: string)
    requires Blank(gap) && ((open == "[" && close == "]") || (open == "{" && close == "}"))
    ensures ParseValue(open + gap + close + rest) == Some((if open == "[" then TArr([]) else TObj([]), rest))
  {
    hide ParseItems, ParseMembers;
    var s := open + gap + close + rest;
    assert s[1..] == gap + (close + rest);
    SkipTo(gap, close + rest);
    assert (close + rest)[1..] == rest;
  }

  function ItemsTail(items: seq<FormItem>): string
    requires items != []
  {
    if |items| == 1 then "" else "," + ItemsText(items[1..])
  }

  /** What follows the gap before the first item, up to the closing bracket and the rest. */
  function AfterGap(items: seq<FormItem>, rest: string): string
    requires items != []
  {
    FormText(items[0].value) + (items[0].after + (ItemsTail(items) + "]") + rest)
  }

  function MembersTail(members: seq<FormMember>): string
    requires members != []
  {
    if |members| == 1 then "" else "," + MembersText(members[1..])
  }

  function AfterGapObject(members: seq<FormMember>, rest: string): string
    requires members != []
  {
    var m := members[0];
    Literal(m.name) + (m.afterName + (":" + (m.beforeValue + (FormText(m.value) +
      (m.after + (MembersTail(members) + "}") + rest)))))
  }

  function MemberText(m: FormMember): string {
    m.before + Literal(m.name) + m.afterName + ":" + m.beforeValue + FormText(m.value) + m.after
  }

  lemma MembersTextIs(members: seq<FormMember>)
    requires members != []
    ensures MembersText(members) == MemberText(members[0]) + MembersTail(members)
  {
    hide FormText, Literal;
  }

  lemma ItemsDivides(items: seq<FormItem>, rest: string)
    requires items != []
    ensures ItemsText(items) + "]" + rest == items[0].before + AfterGap(items, rest)
  {
    ItemsTextIs(items);
    hide FormText, ItemsText, ItemsTail;
    RegroupItem(items[0].before, FormText(items[0].value), items[0].after, ItemsTail(items), rest);
  }

  lemma RegroupItem(a: string, b: string, c: string, d: string, rest: string)
    ensures (a + b + c + d) + "]" + rest == a + (b + (c + (d + "]") + rest))
  {
  }

  lemma ItemsTextIs(items: seq<FormItem>)
    requires items != []
    ensures ItemsText(items) == items[0].before + FormText(items[0].value) + items[0].after + ItemsTail(items)
  {
    hide FormText;
  }

  lemma MembersDivides(members: seq<FormMember>, rest: string)
    requires members != []
    ensures MembersText(members) + "}" + rest == members[0].before + AfterGapObject(members, rest)
  {
    MembersTextIs(members);
    hide FormText, Literal, MembersText, MembersTail;
    var m := members[0];
    RegroupMember(m.before, Literal(m.name), m.afterName, m.beforeValue, FormText(m.value), m.after,
                  MembersTail(members), rest);
  }

  lemma RegroupMember(a: string, b: string, c: string, d: string, e: string, f: string, t: string, rest: string)
    ensures (a + b + c + ":" + d + e + f + t) + "}" + rest
            == a + (b + (c + (":" + (d + (e + (f + (t + "}") + rest))))))
  {
    var end := t + "}" + rest;
    assert (a + b + c + ":" + d + e + f + t) + "}" + rest == (a + b + c + ":") + (d + e + f + end);
    assert f + (t + "}") + rest == f + end;
    assert d + e + f + end == d + (e + (f + end));
    assert (a + b + c + ":") + (d + (e + (f + end))) == a + (b + (c + (":" + (d + (e + (f + end))))));
  }

  lemma ArrayReads(items: seq<FormItem>, rest: string)
    requires items != [] && ItemsFit(items)
    requires ParseItems(AfterGap(items, rest)) == Some((ItemTrees(items), rest))
    ensures ParseValue("[" + ItemsText(items) + "]" + rest) == Some((TArr(ItemTrees(items)), rest))
  {
    hide ParseItems, ItemsText, ItemTrees, AfterGap;
    var s := "[" + ItemsText(items) + "]" + rest;
    var q := AfterGap(items, rest);
    ItemsDivides(items, rest);
    assert s[1..] == items[0].before + q;
    AfterGapStart(items, rest);
    SkipTo(items[0].before, q);
    ReadsArray(s, q, ItemTrees(items), rest);
  }

  lemma AfterGapStart(items: seq<FormItem>, rest: string)
    requires items != [] && ItemsFit(items)
    ensures var q := AfterGap(items, rest); q != "" && !IsSpace(q[0]) && q[0] != ']'
  {
    hide FormText, ItemsText, ItemsTail;
    FormStart(items[0].value, items[0].after + (ItemsTail(items) + "]") + rest);
  }

  lemma ObjectReads(members: seq<FormMember>, rest: string)
    requires members != [] && MembersFit(members)
    requires ParseMembers(AfterGapObject(members, rest)) == Some((MemberTrees(members), rest))
    ensures ParseValue("{" + MembersText(members) + "}" + rest) == Some((TObj(MemberTrees(members)), rest))
  {
    hide ParseMembers, MembersText, MemberTrees, AfterGapObject;
    var s := "{" + MembersText(members) + "}" + rest;
    var q := AfterGapObject(members, rest);
    MembersDivides(members, rest);
    assert s[1..] == members[0].before + q;
    AfterGapObjectStart(members, rest);
    SkipTo(members[0].before, q);
    ReadsObject(s, q, MemberTrees(members), rest);
  }

  lemma AfterGapObjectStart(members: seq<FormMember>, rest: string)
    requires members != []
    ensures var q := AfterGapObject(members, rest); q != "" && q[0] == '"'
  {
    hide FormText, MembersText, PiecesText;
  }

  lemma CloseEnds(after: string, close: char, rest: string)
    requires Blank(after) && (close == ']' || close == '}' || close == ',')
    ensures EndsNumber(after + [close] + rest)
    ensures SkipSpace(after + [close] + rest) == [close] + rest
  {
    assert after + [close] + rest == after + ([close] + rest);
    SkipTo(after, [close] + rest);
    assert after != "" ==> (after + [close] + rest)[0] == after[0];
  }

  lemma {:induction false} ItemsRead(items: seq<FormItem>, rest: string)
    requires items != [] && ItemsFit(items)
    ensures ParseItems(AfterGap(items, rest)) == Some((ItemTrees(items), rest))
    decreases items, 0
  {
    hide ParseValue, ParseItems, FormText, ItemsText, SkipSpace, EndsNumber, AfterGap, ItemsTail;
    var it := items[0];
    if |items| == 1 {
      CloseEnds(it.after, ']', rest);
      LastTail(items, rest);
      FormReads(it.value, it.after + "]" + rest);
      ReadsLastItem(AfterGap(items, rest), FormTree(it.value), it.after + "]" + rest, rest);
      OneItemTree(items);
    } else {
      var more := ItemsText(items[1..]) + "]" + rest;
      var tail := it.after + "," + more;
      CloseEnds(it.after, ',', more);
      NextTail(items, rest);
      FormReads(it.value, tail);
      ItemsRead(items[1..], rest);
      ItemsDivides(items[1..], rest);
      AfterGapStart(items[1..], rest);
      SkipTo(items[1].before, AfterGap(items[1..], rest));
      NextItem(AfterGap(items, rest), FormTree(it.value), tail, more, AfterGap(items[1..], rest),
               ItemTrees(items[1..]), rest);
    }
  }

  lemma LastTail(items: seq<FormItem>, rest: string)
    requires |items| == 1
    ensures AfterGap(items, rest) == FormText(items[0].value) + (items[0].after + "]" + rest)
  {
    hide FormText;
    assert ItemsTail(items) + "]" == "]";
  }

  lemma NextTail(items: seq<FormItem>, rest: string)
    requires |items| > 1
    ensures AfterGap(items, rest)
            == FormText(items[0].value) + (items[0].after + "," + (ItemsText(items[1..]) + "]" + rest))
  {
    hide FormText, ItemsText;
    var a, b := items[0].after, ItemsText(items[1..]);
    assert a + (("," + b) + "]") + rest == a + "," + (b + "]" + rest);
  }

  lemma MemberTail(members: seq<FormMember>, rest: string, tail: string)
    requires members != []
    requires tail == members[0].after +
                     if |members| == 1 then "}" + rest else "," + (MembersText(members[1..]) + "}" + rest)
    ensures var m := members[0];
            AfterGapObject(members, rest)
            == Literal(m.name) + (m.afterName + (":" + (m.beforeValue + (FormText(m.value) + tail))))
  {
    hide FormText, MembersText, Literal;
    var a := members[0].after;
    if |members| == 1 {
      assert a + ("" + "}") + rest == tail;
    } else {
      var b := MembersText(members[1..]);
      assert a + (("," + b) + "}") + rest == tail;
    }
  }

  lemma OneItemTree(items: seq<FormItem>)
    requires |items| == 1 && ItemsFit(items)
    ensures ItemTrees(items) == [FormTree(items[0].value)]
  {
    hide FormTree;
  }

  lemma OneMemberTree(members: seq<FormMember>)
    requires |members| == 1 && MembersFit(members)
    ensures MemberTrees(members) == [Member(PiecesChars(members[0].name), FormTree(members[0].value))]
  {
    hide FormTree, PiecesChars;
  }

  lemma NextItem(s: string, t: Tree, tail: string, more: string, next: string, ts: seq<Tree>, rest: string)
    requires ParseValue(s) == Some((t, tail)) && SkipSpace(tail) == "," + more && SkipSpace(more) == next
    requires ParseItems(next) == Some((ts, rest))
    ensures ParseItems(s) == Some(([t] + ts, rest))
  {
    hide ParseValue, SkipSpace;
    assert ("," + more)[1..] == more;
  }

  lemma {:induction false} MembersRead(members: seq<FormMember>, rest: string)
    requires members != [] && MembersFit(members)
    ensures ParseMembers(AfterGapObject(members, rest)) == Some((MemberTrees(members), rest))
    decreases members, 0
  {
    hide ParseValue, ParseMembers, FormText, MembersText, SkipSpace, EndsNumber, ParseStringBody, PiecesChars, Literal,
      AfterGapObject, MembersTail;
    var m := members[0];
    var last := |members| == 1;
    var more := if last then rest else MembersText(members[1..]) + "}" + rest;
    var close := if last then '}' else ',';
    var tail := m.after + [close] + more;
    assert tail == m.after + ([close] + more);
    CloseEnds(m.after, close, more);
    var v := FormText(m.value) + tail;
    var c := m.afterName + (":" + (m.beforeValue + v));
    MemberTail(members, rest, tail);
    LiteralReads(m.name, c);
    AfterGapObjectStart(members, rest);
    FormReads(m.value, tail);
    FormStart(m.value, tail);
    SkipTo(m.beforeValue, v);
    SkipTo(m.afterName, ":" + (m.beforeValue + v));
    var s := AfterGapObject(members, rest);
    if last {
      LastMember(s, PiecesChars(m.name), c, m.beforeValue + v, v, FormTree(m.value), tail, rest);
      OneMemberTree(members);
    } else {
      MembersRead(members[1..], rest);
      MembersDivides(members[1..], rest);
      AfterGapObjectStart(members[1..], rest);
      SkipTo(members[1].before, AfterGapObject(members[1..], rest));
      NextMember(s, PiecesChars(m.name), c, m.beforeValue + v, v, FormTree(m.value), tail, more,
                 AfterGapObject(members[1..], rest), MemberTrees(members[1..]), rest);
    }
  }

  lemma {:induction false} LastMember(s: string, name: string, c: string, d: string, v: string, t: Tree, tail: string,
                                      rest: string)
    requires s != "" && s[0] == '"' && ParseStringBody(s[1..]) == Some((name, c)) && SkipSpace(c) == ":" + d
    requires SkipSpace(d) == v && ParseValue(v) == Some((t, tail)) && SkipSpace(tail) == "}" + rest
    ensures ParseMembers(s) == Some(([Member(name, t)], rest))
  {
    hide ParseValue, SkipSpace, ParseStringBody;
    assert (":" + d)[1..] == d && ("}" + rest)[1..] == rest;
  }

  lemma {:induction false} NextMember(s: string, name: string, c: string, d: string, v: string, t: Tree, tail: string,
                                      more: string, next: string, ms: seq<Member>, rest: string)
    requires s != "" && s[0] == '"' && ParseStringBody(s[1..]) == Some((name, c)) && SkipSpace(c) == ":" + d
    requires SkipSpace(d) == v && ParseValue(v) == Some((t, tail)) && SkipSpace(tail) == "," + more
    requires SkipSpace(more) == next && ParseMembers(next) == Some((ms, rest))
    ensures ParseMembers(s) == Some(([Member(name, t)] + ms, rest))
  {
    hide ParseValue, SkipSpace, ParseStringBody;
    assert (":" + d)[1..] == d && ("," + more)[1..] == more;
  }

  // ---------- everything that is read has a form ----------

  lemma {:induction false} SkippedGap(s: string) returns (gap: string)
    ensures Blank(gap) && s == gap + SkipSpace(s)
  {
    if s != "" && IsSpace(s[0]) {
      var more := SkippedGap(s[1..]);
      gap := [s[0]] + more;
      hide SkipSpace, IsSpace;
      assert s == [s[0]] + s[1..];
    } else {
      gap := "";
    }
  }

  lemma {:induction false} ValueHasForm(s: string) returns (f: Form)
    requires ParseValue(s).Some?
    ensures FormFits(f) && FormTree(f) == ParseValue(s).value.0 && s == FormText(f) + ParseValue(s).value.1
    decreases |s|, 1
  {
    if s[0] == '"' {
      f := StringForm(s);
    } else if s[0] == '[' {
      f := ArrayForm(s);
    } else if s[0] == '{' {
      f := ObjectForm(s);
    } else {
      f := ScalarForm(s);
    }
  }

  lemma StringForm(s: string) returns (f: Form)
    requires ParseValue(s).Some? && s[0] == '"'
    ensures FormFits(f) && FormTree(f) == ParseValue(s).value.0 && s == FormText(f) + ParseValue(s).value.1
  {
    hide PiecesChars, PiecesText, PiecesFit, ParseStringBody, ParseItems, ParseMembers;
    var qs := StringHasPieces(s[1..]);
    f := FString(qs);
    assert s == "\"" + s[1..];
  }

  lemma ScalarForm(s: string) returns (f: Form)
    requires ParseValue(s).Some? && s[0] != '"' && s[0] != '[' && s[0] != '{'
    ensures FormFits(f) && FormTree(f) == ParseValue(s).value.0 && s == FormText(f) + ParseValue(s).value.1
  {
    hide NumberSpan, ParseStringBody, ParseItems, ParseMembers;
    if s[0] == 'n' {
      f := FNull;
      assert s == s[..4] + s[4..];
    } else if s[0] == 't' {
      f := FBool(true);
      assert s == s[..4] + s[4..];
    } else if s[0] == 'f' {
      f := FBool(false);
      assert s == s[..5] + s[5..];
    } else {
      NumberSpanIsNumber(s);
      f := FNumber(s[..NumberSpan(s)]);
      assert s == s[..NumberSpan(s)] + s[NumberSpan(s)..];
    }
  }

  lemma Wrapped(open: string, gap: string, body: string, close: string, rest: string, s: string, q: string)
    requires s == open + (gap + q) && q == body + close + rest
    ensures s == (open + (gap + body) + close) + rest
  {
  }

  lemma ArrayCut(s: string)
    requires ParseValue(s).Some? && s[0] == '['
    ensures var q := SkipSpace(s[1..]);
            q != "" &&
            if q[0] == ']' then ParseValue(s).value == (TArr([]), q[1..])
            else ParseItems(q).Some? && ParseValue(s).value == (TArr(ParseItems(q).value.0), ParseItems(q).value.1)
  {
    EmptyItems();
    hide ParseItems, ParseMembers, ParseStringBody, NumberSpan, SkipSpace;
  }

  lemma EmptyItems()
    ensures ParseItems("").None? && ParseMembers("").None?
  {
  }

  lemma {:induction false} ArrayForm(s: string) returns (f: Form)
    requires ParseValue(s).Some? && s[0] == '['
    ensures FormFits(f) && FormTree(f) == ParseValue(s).value.0 && s == FormText(f) + ParseValue(s).value.1
    decreases |s|, 0
  {
    hide ParseValue, ParseItems, SkipSpace, ItemsText, ItemsFit, ItemTrees;
    ArrayCut(s);
    var q := SkipSpace(s[1..]);
    var gap := SkippedGap(s[1..]);
    assert s == "[" + s[1..];
    if q[0] == ']' {
      f := FEmptyArray(gap);
      assert q == "" + "]" + q[1..];
      Wrapped("[", gap, "", "]", q[1..], s, q);
      assert gap + "" == gap;
    } else {
      var items := ItemsHaveForm(q);
      var first := WithGap(items, gap);
      f := FArray(first);
      Wrapped("[", gap, ItemsText(items), "]", ParseValue(s).value.1, s, q);
    }
  }

  /** The first item with the gap that was skipped before it. */
  lemma WithGap(items: seq<FormItem>, gap: string) returns (r: seq<FormItem>)
    requires items != [] && ItemsFit(items) && items[0].before == "" && Blank(gap)
    ensures r != [] && ItemsFit(r) && ItemTrees(r) == ItemTrees(items) && ItemsText(r) == gap + ItemsText(items)
  {
    hide FormText, FormTree, FormFits;
    r := [items[0].(before := gap)] + items[1..];
    assert r[1..] == items[1..];
  }

  lemma {:induction false} ItemsHaveForm(s: string) returns (items: seq<FormItem>)
    requires ParseItems(s).Some?
    ensures items != [] && items[0].before == "" && ItemsFit(items) && ItemTrees(items) == ParseItems(s).value.0
    ensures s == ItemsText(items) + "]" + ParseItems(s).value.1
    decreases |s|, 2
  {
    hide ParseValue, ParseItems, SkipSpace, FormText, FormTree, FormFits, ItemsText, ItemsFit, ItemTrees;
    ItemsCut(s);
    var (t, tail) := ParseValue(s).value;
    var f := ValueHasForm(s);
    var after := SkippedGap(tail);
    var q := SkipSpace(tail);
    assert q == [q[0]] + q[1..];
    if q[0] == ']' {
      items := [FormItem("", f, after)];
      OneItem(FormItem("", f, after));
    } else {
      var next := SkipSpace(q[1..]);
      var gap := SkippedGap(q[1..]);
      var rest := ItemsHaveForm(next);
      var more := WithGap(rest, gap);
      items := [FormItem("", f, after)] + more;
      ItemsJoin(FormItem("", f, after), more);
      ItemWrapped(s, FormText(f), after, q, gap, ItemsText(rest), ParseItems(next).value.1);
    }
  }

  lemma ItemWrapped(s: string, v: string, after: string, q: string, gap: string, body: string, rest: string)
    requires s == v + (after + q) && q != "" && q[0] == ',' && q[1..] == gap + (body + "]" + rest)
    ensures s == ("" + v + after + "," + (gap + body)) + "]" + rest
  {
    assert q == "," + q[1..];
  }

  /** One step of the item loop. */
  lemma ItemsCut(s: string)
    requires ParseItems(s).Some?
    ensures ParseValue(s).Some?
    ensures var (t, tail) := ParseValue(s).value;
            var q := SkipSpace(tail);
            q != "" &&
            if q[0] == ']' then ParseItems(s).value == ([t], q[1..])
            else
              q[0] == ',' && ParseItems(SkipSpace(q[1..])).Some? &&
              var (ts, rest) := ParseItems(SkipSpace(q[1..])).value; ParseItems(s).value == ([t] + ts, rest)
  {
    hide ParseValue, SkipSpace;
  }

  lemma OneItem(it: FormItem)
    requires Blank(it.before) && FormFits(it.value) && Blank(it.after)
    ensures ItemsFit([it]) && ItemTrees([it]) == [FormTree(it.value)]
    ensures ItemsText([it]) == it.before + FormText(it.value) + it.after
  {
    hide FormText, FormTree, FormFits;
    assert [it][1..] == [];
  }

  lemma ItemsJoin(it: FormItem, more: seq<FormItem>)
    requires more != [] && Blank(it.before) && FormFits(it.value) && Blank(it.after) && ItemsFit(more)
    ensures ItemsFit([it] + more) && ItemTrees([it] + more) == [FormTree(it.value)] + ItemTrees(more)
    ensures ItemsText([it] + more) == it.before + FormText(it.value) + it.after + "," + ItemsText(more)
  {
    hide FormText, FormTree, FormFits;
    assert ([it] + more)[1..] == more;
  }

  lemma ObjectCut(s: string)
    requires ParseValue(s).Some? && s[0] == '{'
    ensures var q := SkipSpace(s[1..]);
            q != "" &&
            if q[0] == '}' then ParseValue(s).value == (TObj([]), q[1..])
            else
              ParseMembers(q).Some? && ParseValue(s).value == (TObj(ParseMembers(q).value.0), ParseMembers(q).value.1)
  {
    EmptyItems();
    hide ParseItems, ParseMembers, ParseStringBody, NumberSpan, SkipSpace;
  }

  lemma {:induction false} ObjectForm(s: string) returns (f: Form)
    requires ParseValue(s).Some? && s[0] == '{'
    ensures FormFits(f) && FormTree(f) == ParseValue(s).value.0 && s == FormText(f) + ParseValue(s).value.1
    decreases |s|, 0
  {
    hide ParseValue, ParseMembers, SkipSpace, MembersText, MembersFit, MemberTrees;
    ObjectCut(s);
    var q := SkipSpace(s[1..]);
    var gap := SkippedGap(s[1..]);
    assert s == "{" + s[1..];
    if q[0] == '}' {
      f := FEmptyObject(gap);
      assert q == "" + "}" + q[1..];
      Wrapped("{", gap, "", "}", q[1..], s, q);
      assert gap + "" == gap;
    } else {
      var members := MembersHaveForm(q);
      var first := WithMemberGap(members, gap);
      f := FObject(first);
      Wrapped("{", gap, MembersText(members), "}", ParseValue(s).value.1, s, q);
    }
  }

  lemma WithMemberGap(members: seq<FormMember>, gap: string) returns (r: seq<FormMember>)
    requires members != [] && MembersFit(members) && members[0].before == "" && Blank(gap)
    ensures r != [] && MembersFit(r) && MemberTrees(r) == MemberTrees(members)
    ensures MembersText(r) == gap + MembersText(members)
  {
    hide FormText, FormTree, FormFits, Literal, PiecesChars, MembersText, MemberText;
    var m := members[0];
    r := [m.(before := gap)] + members[1..];
    assert r[1..] == members[1..];
    MembersTextIs(members);
    MembersTextIs(r);
    GapFirst(m, gap);
    assert (gap + MemberText(m)) + MembersTail(members) == gap + (MemberText(m) + MembersTail(members));
  }

  lemma GapFirst(m: FormMember, gap: string)
    requires m.before == ""
    ensures MemberText(m.(before := gap)) == gap + MemberText(m)
  {
    hide FormText, Literal;
  }

  lemma {:induction false} MembersHaveForm(s: string) returns (members: seq<FormMember>)
    requires ParseMembers(s).Some?
    ensures members != [] && members[0].before == "" && MembersFit(members)
    ensures MemberTrees(members) == ParseMembers(s).value.0
    ensures s == MembersText(members) + "}" + ParseMembers(s).value.1
    decreases |s|, 2
  {
    hide ParseValue, ParseMembers, SkipSpace, FormText, FormTree, FormFits, ParseStringBody, PiecesText, PiecesFit,
      PiecesChars, MembersText, MembersFit, MemberTrees, MemberText, Literal;
    MembersCut(s);
    var (name, c) := ParseStringBody(s[1..]).value;
    var qs := StringHasPieces(s[1..]);
    var afterName := SkippedGap(c);
    var d := SkipSpace(c);
    var beforeValue := SkippedGap(d[1..]);
    var v := SkipSpace(d[1..]);
    var (t, tail) := ParseValue(v).value;
    var f := ValueHasForm(v);
    var after := SkippedGap(tail);
    var q := SkipSpace(tail);
    var m := FormMember("", qs, afterName, beforeValue, f, after);
    assert q == [q[0]] + q[1..];
    MemberAssembled(m, s, c, d, v, tail, q);
    if q[0] == '}' {
      members := [m];
      OneMember(m);
    } else {
      var next := SkipSpace(q[1..]);
      var gap := SkippedGap(q[1..]);
      var rest := MembersHaveForm(next);
      var more := WithMemberGap(rest, gap);
      members := [m] + more;
      MembersJoin(m, more);
    }
  }

  /** One step of the member loop. */
  lemma MembersCut(s: string)
    requires ParseMembers(s).Some?
    ensures s != "" && s[0] == '"' && ParseStringBody(s[1..]).Some?
    ensures var (name, c) := ParseStringBody(s[1..]).value;
            var d := SkipSpace(c);
            d != "" && d[0] == ':' && ParseValue(SkipSpace(d[1..])).Some? && |SkipSpace(d[1..])| < |s| &&
            var (t, tail) := ParseValue(SkipSpace(d[1..])).value;
            var q := SkipSpace(tail);
            q != "" &&
            if q[0] == '}' then ParseMembers(s).value == ([Member(name, t)], q[1..])
            else
              q[0] == ',' && ParseMembers(SkipSpace(q[1..])).Some? && |SkipSpace(q[1..])| < |s| &&
              var (ms, rest) := ParseMembers(SkipSpace(q[1..])).value;
              ParseMembers(s).value == ([Member(name, t)] + ms, rest)
  {
    hide ParseValue, SkipSpace, ParseStringBody;
  }

  predicate MemberFits(m: FormMember) {
    Blank(m.before) && PiecesFit(m.name) && Blank(m.afterName) && Blank(m.beforeValue) && FormFits(m.value) &&
    Blank(m.after)
  }

  lemma MemberAssembled(m: FormMember, s: string, c: string, d: string, v: string, tail: string, q: string)
    requires s != "" && s[0] == '"' && s[1..] == PiecesText(m.name) + "\"" + c && m.before == ""
    requires d != "" && d[0] == ':' && c == m.afterName + d && d[1..] == m.beforeValue + v
    requires v == FormText(m.value) + tail && tail == m.after + q
    ensures s == MemberText(m) + q
  {
    hide FormText, PiecesText;
    assert s == "\"" + s[1..] && d == ":" + d[1..];
  }

  lemma OneMember(m: FormMember)
    requires MemberFits(m)
    ensures MembersFit([m]) && MemberTrees([m]) == [Member(PiecesChars(m.name), FormTree(m.value))]
    ensures MembersText([m]) == MemberText(m)
  {
    hide FormText, Literal, FormTree, FormFits, PiecesChars, PiecesFit;
    assert [m][1..] == [];
  }

  lemma MembersJoin(m: FormMember, more: seq<FormMember>)
    requires more != [] && MemberFits(m) && MembersFit(more)
    ensures MembersFit([m] + more)
    ensures MemberTrees([m] + more) == [Member(PiecesChars(m.name), FormTree(m.value))] + MemberTrees(more)
    ensures MembersText([m] + more) == MemberText(m) + "," + MembersText(more)
  {
    hide FormText, Literal, FormTree, FormFits, PiecesChars, PiecesFit;
    assert ([m] + more)[1..] == more;
  }

  // ---------- the reader is the grammar ----------

  /** A document: one value with white space around it. */
  predicate Document(s: string, t: Tree, lead: string, f: Form, trail: string) {
    Blank(lead) && FormFits(f) && Blank(trail) && s == lead + FormText(f) + trail && FormTree(f) == t
  }

  /**
    The reader accepts exactly the documents of the grammar, and gives each the one tree it
    denotes: nothing malformed is read, and nothing well formed is refused or misread.
   */
  lemma ReaderIsGrammar(s: string, t: Tree)
    ensures ParseText(s) == Some(t) <==> exists lead, f, trail :: Document(s, t, lead, f, trail)
  {
    hide ParseValue, FormText, FormFits, FormTree, SkipSpace;
    if lead, f, trail :| Document(s, t, lead, f, trail) {
      DocumentReads(s, t, lead, f, trail);
    }
    if ParseText(s) == Some(t) {
      var lead, f, trail := TextHasForm(s);
      assert Document(s, t, lead, f, trail);
    }
  }

  lemma DocumentReads(s: string, t: Tree, lead: string, f: Form, trail: string)
    requires Document(s, t, lead, f, trail)
    ensures ParseText(s) == Some(t)
  {
    hide ParseValue, FormText, FormFits, FormTree, SkipSpace;
    assert s == lead + (FormText(f) + trail);
    FormStart(f, trail);
    SkipTo(lead, FormText(f) + trail);
    BlankEnds(trail);
    FormReads(f, trail);
  }

  lemma BlankEnds(trail: string)
    requires Blank(trail)
    ensures EndsNumber(trail) && SkipSpace(trail) == ""
  {
    SkipBlank(trail, "");
    assert trail + "" == trail;
  }

  lemma TextHasForm(s: string) returns (lead: string, f: Form, trail: string)
    requires ParseText(s).Some?
    ensures Document(s, ParseText(s).value, lead, f, trail)
  {
    hide ParseValue, FormText, FormFits, FormTree, SkipSpace;
    lead := SkippedGap(s);
    var v := SkipSpace(s);
    f := ValueHasForm(v);
    trail := SkippedGap(ParseValue(v).value.1);
  }

  // ---------- the two layouts ----------

  /** Nothing, or a line feed and two spaces for each level. */
  function Break(st: Style, level: nat): string {
    if st == Compact then "" else "\n" + seq(2 * level, i => ' ')
  }

  lemma {:induction false} SpacesAre(n: nat)
    ensures Spaces(n) == seq(n, i => ' ')
  {
    if n > 0 {
      SpacesAre(n - 1);
    }
  }

  lemma NewlineIs(st: Style, level: nat)
    ensures Newline(st, level) == Break(st, level)
  {
    SpacesAre(2 * level);
    assert "\n" == [10 as char];
  }

  lemma ArrayOpens(st: Style, level: nat, items: seq<Tree>)
    requires items != []
    ensures Print(st, level, TArr(items))
            == ("[" + Newline(st, level + 1)) + PrintItems(st, level + 1, items) + (Newline(st, level) + "]")
  {
    hide PrintItems, Newline;
  }

  lemma ObjectOpens(st: Style, level: nat, members: seq<Member>)
    requires members != []
    ensures Print(st, level, TObj(members))
            == ("{" + Newline(st, level + 1)) + PrintMembers(st, level + 1, members) + (Newline(st, level) + "}")
  {
    hide PrintMembers, Newline;
  }

  lemma TwoItems(st: Style, level: nat, t: Tree, u: Tree)
    ensures PrintItems(st, level, [t, u]) == Print(st, level, t) + "," + Newline(st, level) + Print(st, level, u)
  {
    hide Print, Newline;
    assert [t, u][1..] == [u];
    assert PrintItems(st, level, [u]) == Print(st, level, u) + "";
  }

  /** An array: items between commas, each on a line of its own in a file, one level deeper. */
  lemma ArrayLayout(st: Style, level: nat, t: Tree, u: Tree)
    ensures Print(st, level, TArr([t, u]))
            == "[" + Break(st, level + 1) + Print(st, level + 1, t) + "," +
               Break(st, level + 1) + Print(st, level + 1, u) + Break(st, level) + "]"
  {
    NewlineIs(st, level);
    NewlineIs(st, level + 1);
    TwoItems(st, level + 1, t, u);
    hide Newline, Break, PrintItems, Print;
    ArrayOpens(st, level, [t, u]);
    Regroup("[" + Break(st, level + 1), Print(st, level + 1, t), ",", Break(st, level + 1), Print(st, level + 1, u),
            Break(st, level) + "]");
  }

  lemma Regroup(a: string, b: string, c: string, d: string, e: string, f: string)
    ensures a + (b + c + d + e) + f == a + b + c + d + e + f
  {
    assert a + (b + c + d + e) == a + b + c + d + e;
  }

  lemma TwoMembers(st: Style, level: nat, a: Member, b: Member)
    ensures PrintMembers(st, level, [a, b])
            == (PrintString(st, a.name) + Colon(st) + Print(st, level, a.value)) + "," + Newline(st, level) +
               (PrintString(st, b.name) + Colon(st) + Print(st, level, b.value))
  {
    hide Print, Newline, PrintString, Colon;
    assert [a, b][1..] == [b];
    assert PrintMembers(st, level, [b]) == PrintString(st, b.name) + Colon(st) + Print(st, level, b.value) + "";
  }

  /** An object: the same, with a colon after each name, and a space after it in a file. */
  lemma ObjectLayout(st: Style, level: nat, a: Member, b: Member)
    ensures var colon := if st == Compact then ":" else ": ";
            Print(st, level, TObj([a, b]))
            == "{" + Break(st, level + 1) + (PrintString(st, a.name) + colon + Print(st, level + 1, a.value)) + "," +
               Break(st, level + 1) + (PrintString(st, b.name) + colon + Print(st, level + 1, b.value)) +
               Break(st, level) + "}"
  {
    NewlineIs(st, level);
    NewlineIs(st, level + 1);
    TwoMembers(st, level + 1, a, b);
    var x := PrintString(st, a.name) + Colon(st) + Print(st, level + 1, a.value);
    var y := PrintString(st, b.name) + Colon(st) + Print(st, level + 1, b.value);
    hide Newline, Break, PrintMembers, PrintString, Print;
    ObjectOpens(st, level, [a, b]);
    Regroup("{" + Break(st, level + 1), x, ",", Break(st, level + 1), y, Break(st, level) + "}");
  }

  // ---------- receipt files ----------

  lemma AsciiJoins(a: string, b: string)
    requires Ascii(a) && Ascii(b)
    ensures Ascii(a + b)
  {
  }

  lemma DigitsAscii(s: string)
    requires Digits(s)
    ensures Ascii(s)
  {
  }

  lemma {:induction false} SpacesAscii(n: nat)
    ensures Ascii(Spaces(n))
  {
    if n > 0 {
      SpacesAscii(n - 1);
    }
  }

  lemma NewlineAscii(level: nat)
    ensures Ascii(Newline(Indented, level))
  {
    SpacesAscii(2 * level);
    hide Spaces;
  }

  lemma {:induction false} FracAscii(n: NumberParts)
    requires NumberFits(n)
    ensures Ascii(FracText(n))
  {
    hide ExpMark;
    if n.frac.Some? {
      DigitsAscii(n.frac.value);
      AsciiJoins(".", n.frac.value);
    }
  }

  lemma {:induction false} ExpAscii(n: NumberParts)
    requires NumberFits(n)
    ensures Ascii(ExpText(n))
  {
    if n.exp.Some? {
      DigitsAscii(n.exp.value.1);
      AsciiJoins(n.exp.value.0, n.exp.value.1);
    }
  }

  lemma LexemeAscii(lexeme: NumberLexeme)
    ensures Ascii(lexeme)
  {
    var n := NumberHasParts(lexeme);
    DigitsAscii(n.whole);
    FracAscii(n);
    ExpAscii(n);
    hide FracText, ExpText, Digits, NumberFits;
    var minus := if n.minus then "-" else "";
    AsciiJoins(minus, n.whole);
    AsciiJoins(minus + n.whole, FracText(n));
    AsciiJoins(minus + n.whole + FracText(n), ExpText(n));
  }

  lemma {:induction false} StringAscii(s: string)
    ensures Ascii(PrintString(Indented, s))
  {
    IndentedIsAscii(s);
    hide EscapeAll;
  }

  /** Whatever a tree contains, its indented text is ASCII. */
  lemma {:induction false} PrintIsAscii(level: nat, t: Tree)
    ensures Ascii(Print(Indented, level, t))
    decreases t
  {
    match t
    case TNum(lexeme) => LexemeAscii(lexeme);
    case TStr(s) => StringAscii(s);
    case TArr(items) =>
      if items != [] {
        ItemsAreAscii(level + 1, items);
        hide PrintItems, Newline;
        Bracketed("[", "]", level, PrintItems(Indented, level + 1, items));
      }
    case TObj(members) =>
      if members != [] {
        MembersAreAscii(level + 1, members);
        hide PrintMembers, Newline;
        Bracketed("{", "}", level, PrintMembers(Indented, level + 1, members));
      }
    case _ =>
  }

  lemma Bracketed(open: string, close: string, level: nat, body: string)
    requires Ascii(open) && Ascii(close) && Ascii(body)
    ensures Ascii(open + Newline(Indented, level + 1) + body + Newline(Indented, level) + close)
  {
    NewlineAscii(level);
    NewlineAscii(level + 1);
    hide Newline;
    var a := open + Newline(Indented, level + 1);
    AsciiJoins(open, Newline(Indented, level + 1));
    AsciiJoins(a, body);
    AsciiJoins(a + body, Newline(Indented, level));
    AsciiJoins(a + body + Newline(Indented, level), close);
  }

  lemma {:induction false} ItemsAreAscii(level: nat, items: seq<Tree>)
    requires items != []
    ensures Ascii(PrintItems(Indented, level, items))
    decreases items
  {
    PrintIsAscii(level, items[0]);
    if |items| > 1 {
      ItemsAreAscii(level, items[1..]);
      NewlineAscii(level);
      hide Print, Newline;
      FollowedBy(Print(Indented, level, items[0]), Newline(Indented, level), PrintItems(Indented, level, items[1..]));
    }
  }

  lemma FollowedBy(first: string, gap: string, rest: string)
    requires Ascii(first) && Ascii(gap) && Ascii(rest)
    ensures Ascii(first + ("," + gap + rest))
  {
    AsciiJoins(",", gap);
    AsciiJoins("," + gap, rest);
    AsciiJoins(first, "," + gap + rest);
  }

  lemma {:induction false} MembersAreAscii(level: nat, members: seq<Member>)
    requires members != []
    ensures Ascii(PrintMembers(Indented, level, members))
    decreases members
  {
    var name, value := PrintString(Indented, members[0].name), Print(Indented, level, members[0].value);
    StringAscii(members[0].name);
    PrintIsAscii(level, members[0].value);
    hide Print, PrintString, Newline;
    AsciiJoins(name, ": ");
    AsciiJoins(name + ": ", value);
    if |members| > 1 {
      MembersAreAscii(level, members[1..]);
      NewlineAscii(level);
      FollowedBy(name + ": " + value, Newline(Indented, level), PrintMembers(Indented, level, members[1..]));
    }
  }
}
