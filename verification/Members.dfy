/** The members of a receipt, and that the verifier reads what they say. */
module Members {
  import opened Wrappers
  import opened Text
  import opened JsonText
  import G = Grammar
  import opened Json
  import opened Ratios
  import opened Ledger
  import opened Platform
  import opened Receipts

  // ---------- members ----------

  function TextAt(d: Dict, k: string): Option<string> {
    if k in d && d[k].Str? then Some(d[k].s) else None
  }

  function BoolAt(d: Dict, k: string): Option<bool> {
    if k in d && d[k].Bool? then Some(d[k].b) else None
  }

  predicate IsNum(v: Json) {
    v.Int? || v.Float?
  }

  function Num(v: Json): real
    requires IsNum(v)
  {
    if v.Int? then v.n as real else LexemeValue(v.lexeme)
  }

  function NumAt(d: Dict, k: string): Option<real> {
    if k in d && IsNum(d[k]) then Some(Num(d[k])) else None
  }

  // ---------- the number a lexeme denotes ----------

  lemma {:induction false} PowStep(e: int)
    ensures Pow10(e + 1) == 10.0 * Pow10(e)
  {
  }

  lemma ShiftStep(x: real, e: int)
    ensures Shift(x, e + 1) == 10.0 * Shift(x, e)
  {
    PowStep(e);
    hide Pow10;
  }

  lemma ShiftNot(x: real)
    ensures Shift(x, 0) == x
  {
  }

  lemma {:induction false} ShiftTwice(x: real, up: nat, e: int)
    ensures Shift(Shift(x, e), up) == Shift(x, up + e)
  {
    hide Shift;
    if up == 0 {
      ShiftNot(Shift(x, e));
    } else {
      ShiftTwice(x, up - 1, e);
      ShiftStep(Shift(x, e), up - 1);
      ShiftStep(x, up - 1 + e);
    }
  }

  lemma ShiftAdds(x: real, y: real, e: int)
    ensures Shift(x + y, e) == Shift(x, e) + Shift(y, e)
  {
    hide Pow10;
  }

  lemma LastDigit(s: string)
    requires s != "" && Digits(s)
    ensures Digits(s[..|s| - 1]) && NatValue(s) == NatValue(s[..|s| - 1]) * 10 + (s[|s| - 1] as int - 48)
  {
  }

  lemma DigitsConcat(a: string, b: string)
    requires Digits(a) && Digits(b)
    ensures Digits(a + b)
  {
  }

  lemma {:induction false} DigitsJoin(a: string, b: string)
    requires Digits(a) && Digits(b)
    ensures Digits(a + b) && NatValue(a + b) as real == Shift(NatValue(a) as real, |b|) + NatValue(b) as real
  {
    DigitsConcat(a, b);
    hide Shift;
    if b == "" {
      assert a + b == a;
      ShiftNot(NatValue(a) as real);
    } else {
      var n := |b| - 1;
      var all, c := a + b, b[..n];
      assert all[..|all| - 1] == a + c && all[|all| - 1] == b[n];
      LastDigit(b);
      LastDigit(all);
      DigitsJoin(a, c);
      ShiftStep(NatValue(a) as real, n);
      hide NatValue, Digits;
    }
  }

  function FracDigits(n: G.NumberParts): string {
    if n.frac.Some? then n.frac.value else ""
  }

  function Exponent(n: G.NumberParts): int
    requires G.NumberFits(n)
  {
    if n.exp.None? then 0
    else
      var digits: int := NatValue(n.exp.value.1);
      if n.exp.value.0 in {"e-", "E-"} then -digits else digits
  }

  /** All digits read as one natural number, moved by the exponent less the number of fraction digits. */
  function Decimal(n: G.NumberParts): real
    requires G.NumberFits(n)
    requires Digits(n.whole + FracDigits(n))
  {
    var magnitude := Shift(NatValue(n.whole + FracDigits(n)) as real, Exponent(n) - |FracDigits(n)|);
    if n.minus then -magnitude else magnitude
  }

  lemma {:induction false} ExponentIs(n: G.NumberParts)
    requires G.NumberFits(n)
    ensures ExpOf(G.ExpText(n)) == Exponent(n)
  {
    if n.exp.Some? {
      var mark, digits := n.exp.value.0, n.exp.value.1;
      var e := mark + digits;
      assert e[|mark|..] == digits;
      assert e[1] == if |mark| == 2 then mark[1] else digits[0];
    }
  }

  lemma {:induction false} LexemeSpans(s: string, n: G.NumberParts)
    requires G.NumberFits(n) && G.NumberText(n) == s
    ensures var i := IntSpan(s);
            var f := FracSpan(s[i..]);
            && i > 0 && (if s[0] == '-' then s[1..i] else s[..i]) == n.whole
            && (s[0] == '-' <==> n.minus)
            && (if f == 0 then "" else s[i + 1..i + f]) == FracDigits(n) && s[i + f..] == G.ExpText(n)
  {
    hide IntSpan, FracSpan, G.ExpText;
    G.IntSpans(n);
    G.FracSpans(n);
    assert '0' <= n.whole[0] <= '9';
    hide Digits;
    var minus := if n.minus then "-" else "";
    G.Quarters(minus, n.whole, G.FracText(n), G.ExpText(n));
    var i, f := IntSpan(s), FracSpan(s[IntSpan(s)..]);
    assert i == |minus| + |n.whole| && f == |G.FracText(n)|;
    assert s[..i] == minus + n.whole;
    assert s[i..i + f] == G.FracText(n);
  }

  lemma {:induction false} LexemeParts(s: FloatLexeme, n: G.NumberParts)
    requires G.NumberFits(n) && G.NumberText(n) == s
    ensures Digits(FracDigits(n))
    ensures var frac := FracDigits(n);
            var magnitude := Shift(NatValue(n.whole) as real + Shift(NatValue(frac) as real, -|frac|), Exponent(n));
            LexemeValue(s) == if n.minus then -magnitude else magnitude
  {
    hide IntSpan, FracSpan, NatValue, G.NumberText, G.ExpText, Shift, ExpOf, Exponent, G.ExpMark, Digits, IsNumber,
      IsInteger, G.NumberFits, FracDigits;
    FitDigits(n);
    LexemeSpans(s, n);
    ExponentIs(n);
  }

  lemma {:induction false} FitDigits(n: G.NumberParts)
    requires G.NumberFits(n)
    ensures Digits(n.whole) && Digits(FracDigits(n))
  {
    hide G.ExpMark;
  }

  /** A float of a receipt is the decimal number its text is. */
  lemma {:induction false} LexemeMeans(s: FloatLexeme, n: G.NumberParts)
    requires G.NumberFits(n) && G.NumberText(n) == s
    ensures Digits(n.whole + FracDigits(n)) && LexemeValue(s) == Decimal(n)
  {
    hide LexemeValue, NatValue, G.NumberText, G.NumberFits, Exponent, FracDigits, Digits, Shift, IsNumber, IsInteger;
    FitDigits(n);
    LexemeParts(s, n);
    var whole, frac, e := n.whole, FracDigits(n), Exponent(n);
    DigitsJoin(whole, frac);
    var w, f := NatValue(whole) as real, NatValue(frac) as real;
    ShiftFraction(w, f, |frac|, e);
  }

  /** The point may be set first and moved later, or moved all the way at once. */
  lemma ShiftFraction(w: real, f: real, places: int, e: int)
    requires places >= 0
    ensures Shift(w + Shift(f, -places), e) == Shift(Shift(w, places) + f, e - places)
  {
    hide Shift;
    ShiftTwice(f, places, -places);
    ShiftNot(f);
    ShiftAdds(w, Shift(f, -places), places);
    ShiftDown(w + Shift(f, -places), places, e);
  }

  lemma ShiftDown(x: real, places: int, e: int)
    requires places >= 0
    ensures Shift(Shift(x, places), e - places) == Shift(x, e)
  {
    if e >= places {
      ShiftTwice(x, e - places, places);
    } else {
      ShiftUnder(x, places, places - e);
    }
  }

  lemma {:induction false} ShiftUnder(x: real, up: nat, down: int)
    requires down >= 0
    ensures Shift(Shift(x, up), -down) == Shift(x, up - down)
    decreases down
  {
    hide Shift;
    if down == 0 {
      ShiftNot(Shift(x, up));
    } else {
      ShiftUnder(x, up, down - 1);
      ShiftStep(Shift(x, up), -down);
      ShiftStep(x, up - down);
    }
  }

  function ItemsAt(d: Dict, k: string): seq<Json> {
    if k in d && d[k].Arr? then d[k].items else []
  }

  /** The members of the i-th object of a list. */
  function At(items: seq<Json>, i: nat): Dict
    requires i < |items|
  {
    if items[i].Obj? then items[i].m else map[]
  }

  predicate AbsentOr(d: Dict, k: string, kind: Json -> bool) {
    k in d ==> kind(d[k])
  }

  predicate IsText(v: Json) {
    v.Str?
  }

  predicate IsTextOrNull(v: Json) {
    v.Str? || v.Null?
  }

  predicate IsBool(v: Json) {
    v.Bool?
  }

  predicate EventTyped(v: Json) {
    v.Obj? &&
    AbsentOr(v.m, "provider_id", IsTextOrNull) && AbsentOr(v.m, "seat_id", IsText) &&
    AbsentOr(v.m, "trust_domain", IsTextOrNull) && AbsentOr(v.m, "endpoint_host", IsTextOrNull) &&
    AbsentOr(v.m, "payload_sha256", IsText) && AbsentOr(v.m, "completion", IsText) &&
    AbsentOr(v.m, "response_truncated", IsBool)
  }

  predicate LocalTyped(v: Json) {
    v.Obj? && AbsentOr(v.m, "sha256", IsText)
  }

  predicate ExposureTyped(v: Json) {
    v.Obj? && "provider_id" in v.m && v.m["provider_id"].Str? && "exposure_ratio" in v.m && IsNum(v.m["exposure_ratio"])
  }

  predicate DomainTyped(v: Json) {
    v.Obj? && "trust_domain" in v.m && v.m["trust_domain"].Str? &&
    "exposure_ratio" in v.m && IsNum(v.m["exposure_ratio"]) && AbsentOr(v.m, "seat_ids", IsTextList)
  }

  predicate IsTextList(v: Json) {
    v.Arr? && forall i :: 0 <= i < |v.items| ==> v.items[i].Str?
  }

  predicate IsList(v: Json, typed: Json -> bool) {
    v.Arr? && forall i :: 0 <= i < |v.items| ==> typed(v.items[i])
  }

  /** The receipt has per-domain figures. */
  predicate HasDomains(m: Dict) {
    "trust_domain_exposure" in m && !m["trust_domain_exposure"].Null?
  }

  predicate Complete(m: Dict) {
    {"run_id", "task_type", "policy_id", "provider_events", "local_only_hashes", "single_provider_exposure",
     "max_single_provider_exposure", "no_single_provider_saw_full", "prev_receipt_hash", "receipt_hash",
     "signature", "signing_key_id", "masking_level", "provenance"} <= m.Keys
  }

  predicate ScalarsTyped(m: Dict)
    requires Complete(m)
  {
    && m["run_id"].Str? && m["receipt_hash"].Str? && m["signing_key_id"].Str?
    && (m["prev_receipt_hash"].Str? || m["prev_receipt_hash"].Null?)
    && IsNum(m["max_single_provider_exposure"])
    && AbsentOr(m, "max_single_seat_exposure", IsNum) && AbsentOr(m, "max_single_trust_domain_exposure", IsNum)
    && AbsentOr(m, "no_single_trust_domain_received_all_fragments", IsBool)
  }

  predicate ListsTyped(m: Dict)
    requires Complete(m)
  {
    && IsList(m["provider_events"], EventTyped) && IsList(m["local_only_hashes"], LocalTyped)
    && IsList(m["single_provider_exposure"], ExposureTyped)
    && (HasDomains(m) ==> IsList(m["trust_domain_exposure"], DomainTyped))
  }

  /** All required members are there, and every member the verifier looks at has a type it handles. */
  predicate WellTyped(m: Dict) {
    Complete(m) && ScalarsTyped(m) && ListsTyped(m)
  }

  // ---------- what is read is what is there ----------

  function EventView(d: Dict): Event {
    Event(TextAt(d, "provider_id"), TextAt(d, "seat_id"), TextAt(d, "trust_domain"), TextAt(d, "endpoint_host"),
          TextAt(d, "payload_sha256").GetOr(""), TextAt(d, "completion"), BoolAt(d, "response_truncated"))
  }

  function LocalView(d: Dict): string {
    TextAt(d, "sha256").GetOr("")
  }

  function ExposureView(d: Dict): SeatExposure {
    SeatExposure(TextAt(d, "provider_id").GetOr(""), NumAt(d, "exposure_ratio").GetOr(0.0))
  }

  function Texts(items: seq<Json>): (r: seq<string>)
    ensures |r| == |items| && forall i :: 0 <= i < |r| ==> r[i] == if items[i].Str? then items[i].s else ""
  {
    seq(|items|, i requires 0 <= i < |items| => if items[i].Str? then items[i].s else "")
  }

  function DomainView(d: Dict): DomainEntry {
    DomainEntry(TextAt(d, "trust_domain").GetOr(""), NumAt(d, "exposure_ratio").GetOr(0.0),
                if "seat_ids" in d then Some(Texts(ItemsAt(d, "seat_ids"))) else Option.None)
  }

  lemma {:induction false} ReadAllIff<T>(read: Json -> Option<T>, items: seq<Json>)
    ensures ReadAll(read, items).Some? <==> forall i :: 0 <= i < |items| ==> read(items[i]).Some?
    ensures ReadAll(read, items).Some? ==>
              forall i :: 0 <= i < |items| ==> Some(ReadAll(read, items).value[i]) == read(items[i])
  {
    if items != [] {
      var rest := items[1..];
      ReadAllIff(read, rest);
      assert forall i :: 0 <= i < |rest| ==> rest[i] == items[i + 1];
      if read(items[0]).Some? && forall i :: 0 <= i < |rest| ==> read(rest[i]).Some? {
        forall i | 0 <= i < |items| ensures read(items[i]).Some? {
          assert i > 0 ==> read(rest[i - 1]).Some?;
        }
      }
      if ReadAll(read, items).Some? {
        forall i | 0 <= i < |items| ensures Some(ReadAll(read, items).value[i]) == read(items[i]) {
          assert i > 0 ==> Some(ReadAll(read, rest).value[i - 1]) == read(rest[i - 1]);
        }
      }
    }
  }

  lemma {:induction false} EventRead(v: Json)
    ensures ReadEvent(v).Some? <==> EventTyped(v)
    ensures ReadEvent(v).Some? ==> v.Obj? && ReadEvent(v).value == EventView(v.m)
  {
  }

  lemma {:induction false} LocalRead(v: Json)
    ensures ReadLocalHash(v).Some? <==> LocalTyped(v)
    ensures ReadLocalHash(v).Some? ==> v.Obj? && ReadLocalHash(v).value == LocalView(v.m)
  {
  }

  lemma {:induction false} ExposureRead(v: Json)
    ensures ReadExposure(v).Some? <==> ExposureTyped(v)
    ensures ReadExposure(v).Some? ==> v.Obj? && ReadExposure(v).value == ExposureView(v.m)
  {
  }

  /** The value of an Ed25519 signature object that has one. */
  function SignatureText(m: Dict): Option<string> {
    if "signature" in m && m["signature"].Obj? && TextAt(m["signature"].m, "alg") == Some("Ed25519") &&
       TextAt(m["signature"].m, "value").GetOr("") != ""
    then TextAt(m["signature"].m, "value")
    else None
  }

  function Events(items: seq<Json>): (r: seq<Event>)
    ensures |r| == |items| && forall i :: 0 <= i < |r| ==> r[i] == EventView(At(items, i))
  {
    seq(|items|, i requires 0 <= i < |items| => EventView(At(items, i)))
  }

  function Locals(items: seq<Json>): (r: seq<string>)
    ensures |r| == |items| && forall i :: 0 <= i < |r| ==> r[i] == LocalView(At(items, i))
  {
    seq(|items|, i requires 0 <= i < |items| => LocalView(At(items, i)))
  }

  function Exposures(items: seq<Json>): (r: seq<SeatExposure>)
    ensures |r| == |items| && forall i :: 0 <= i < |r| ==> r[i] == ExposureView(At(items, i))
  {
    seq(|items|, i requires 0 <= i < |items| => ExposureView(At(items, i)))
  }

  function Entries(items: seq<Json>): (r: seq<DomainEntry>)
    ensures |r| == |items| && forall i :: 0 <= i < |r| ==> r[i] == DomainView(At(items, i))
  {
    seq(|items|, i requires 0 <= i < |items| => DomainView(At(items, i)))
  }

  /** What the members say. */
  function View(m: Dict): Receipt {
    Receipt(
      TextAt(m, "run_id").GetOr(""), TextAt(m, "receipt_hash").GetOr(""), TextAt(m, "prev_receipt_hash"),
      SignatureText(m), TextAt(m, "signing_key_id").GetOr(""),
      Events(ItemsAt(m, "provider_events")), Locals(ItemsAt(m, "local_only_hashes")),
      Exposures(ItemsAt(m, "single_provider_exposure")),
      if HasDomains(m) then Some(Entries(ItemsAt(m, "trust_domain_exposure"))) else Option.None,
      NumAt(m, "max_single_seat_exposure"), NumAt(m, "max_single_trust_domain_exposure"),
      NumAt(m, "max_single_provider_exposure").GetOr(0.0),
      BoolAt(m, "no_single_trust_domain_received_all_fragments"))
  }

  lemma {:induction false} DomainRead(v: Json)
    ensures ReadDomain(v).Some? <==> DomainTyped(v)
    ensures ReadDomain(v).Some? ==> v.Obj? && ReadDomain(v).value == DomainView(v.m)
  {
    if v.Obj? && "seat_ids" in v.m && v.m["seat_ids"].Arr? {
      ReadAllIff(ReadText, v.m["seat_ids"].items);
      if ReadDomain(v).Some? {
        assert ReadDomain(v).value.seats.value == Texts(ItemsAt(v.m, "seat_ids"));
      }
    }
  }

  /** A list that is read item by item, as `Read` does. */
  lemma ListRead<T>(m: Dict, k: string, read: Json -> Option<T>, typed: Json -> bool, view: Dict -> T)
    requires forall v :: read(v).Some? <==> typed(v)
    requires forall v: Json :: read(v).Some? ==> v.Obj? && read(v).value == view(v.m)
    ensures var list := List(m, k);
            && ((list.Some? && ReadAll(read, list.value).Some?) <==> k in m && IsList(m[k], typed))
            && (list.Some? && ReadAll(read, list.value).Some? ==>
                  var items := ItemsAt(m, k);
                  var r := ReadAll(read, list.value).value;
                  |r| == |items| && forall i :: 0 <= i < |r| ==> r[i] == view(At(items, i)))
  {
    if k in m && m[k].Arr? {
      var items := m[k].items;
      ReadAllIff(read, items);
      hide ReadAll;
    }
  }

  lemma EventsRead(m: Dict)
    ensures var list := List(m, "provider_events");
            && ((list.Some? && ReadAll(ReadEvent, list.value).Some?) <==>
                "provider_events" in m && IsList(m["provider_events"], EventTyped))
            && (list.Some? && ReadAll(ReadEvent, list.value).Some? ==>
                  ReadAll(ReadEvent, list.value).value == Events(ItemsAt(m, "provider_events")))
  {
    forall v ensures ReadEvent(v).Some? <==> EventTyped(v)
      ensures ReadEvent(v).Some? ==> v.Obj? && ReadEvent(v).value == EventView(v.m) {
      EventRead(v);
    }
    hide ReadEvent, EventTyped, EventView, ReadAll;
    ListRead(m, "provider_events", ReadEvent, EventTyped, EventView);
  }

  lemma LocalsRead(m: Dict)
    ensures var list := List(m, "local_only_hashes");
            && ((list.Some? && ReadAll(ReadLocalHash, list.value).Some?) <==>
                "local_only_hashes" in m && IsList(m["local_only_hashes"], LocalTyped))
            && (list.Some? && ReadAll(ReadLocalHash, list.value).Some? ==>
                  ReadAll(ReadLocalHash, list.value).value == Locals(ItemsAt(m, "local_only_hashes")))
  {
    forall v ensures ReadLocalHash(v).Some? <==> LocalTyped(v)
      ensures ReadLocalHash(v).Some? ==> v.Obj? && ReadLocalHash(v).value == LocalView(v.m) {
      LocalRead(v);
    }
    hide ReadLocalHash, LocalTyped, ReadAll;
    ListRead(m, "local_only_hashes", ReadLocalHash, LocalTyped, LocalView);
  }

  lemma ExposuresRead(m: Dict)
    ensures var list := List(m, "single_provider_exposure");
            && ((list.Some? && ReadAll(ReadExposure, list.value).Some?) <==>
                "single_provider_exposure" in m && IsList(m["single_provider_exposure"], ExposureTyped))
            && (list.Some? && ReadAll(ReadExposure, list.value).Some? ==>
                  ReadAll(ReadExposure, list.value).value == Exposures(ItemsAt(m, "single_provider_exposure")))
  {
    forall v ensures ReadExposure(v).Some? <==> ExposureTyped(v)
      ensures ReadExposure(v).Some? ==> v.Obj? && ReadExposure(v).value == ExposureView(v.m) {
      ExposureRead(v);
    }
    hide ReadExposure, ExposureTyped, ExposureView, ReadAll;
    ListRead(m, "single_provider_exposure", ReadExposure, ExposureTyped, ExposureView);
  }

  lemma DomainsRead(m: Dict)
    ensures ReadDomains(m).Some? <==> (HasDomains(m) ==> IsList(m["trust_domain_exposure"], DomainTyped))
    ensures ReadDomains(m).Some? ==> ReadDomains(m).value == View(m).domains
  {
    forall v ensures ReadDomain(v).Some? <==> DomainTyped(v)
      ensures ReadDomain(v).Some? ==> v.Obj? && ReadDomain(v).value == DomainView(v.m) {
      DomainRead(v);
    }
    hide ReadDomain, DomainTyped, DomainView, ReadAll;
    ListRead(m, "trust_domain_exposure", ReadDomain, DomainTyped, DomainView);
    if HasDomains(m) && ReadDomains(m).Some? {
      assert ReadDomains(m).value.value == Entries(ItemsAt(m, "trust_domain_exposure"));
    }
  }

  predicate ScalarsReadable(m: Dict) {
    && PlainText(m, "run_id").Some? && PlainText(m, "receipt_hash").Some? && PlainText(m, "signing_key_id").Some?
    && NullableText(m, "prev_receipt_hash").Some? && Ratio(m, "max_single_provider_exposure").Some?
    && MaybeRatio(m, "max_single_seat_exposure").Some? && MaybeRatio(m, "max_single_trust_domain_exposure").Some?
    && MaybeBool(m, "no_single_trust_domain_received_all_fragments").Some?
  }

  lemma ScalarsRead(m: Dict)
    requires Complete(m)
    ensures ScalarsReadable(m) <==> ScalarsTyped(m)
    ensures ScalarsReadable(m) ==>
              var v := View(m);
              && PlainText(m, "run_id").value == v.runId && PlainText(m, "receipt_hash").value == v.hash
              && PlainText(m, "signing_key_id").value == v.keyId
              && NullableText(m, "prev_receipt_hash").value == v.prev
              && Ratio(m, "max_single_provider_exposure").value == v.maxProvider
              && MaybeRatio(m, "max_single_seat_exposure").value == v.maxSeat
              && MaybeRatio(m, "max_single_trust_domain_exposure").value == v.maxDomain
              && MaybeBool(m, "no_single_trust_domain_received_all_fragments").value == v.noDomainHasAll
              && ReadSignature(m) == v.signature
  {
    hide Events, Locals, Exposures, Entries, HasDomains;
  }

  lemma RequiredAre(m: Dict)
    ensures HasRequired(m) <==> Complete(m)
  {
    if HasRequired(m) {
      assert REQUIRED[0] in m && REQUIRED[1] in m && REQUIRED[2] in m && REQUIRED[3] in m && REQUIRED[4] in m;
      assert REQUIRED[5] in m && REQUIRED[6] in m && REQUIRED[7] in m && REQUIRED[8] in m && REQUIRED[9] in m;
      assert REQUIRED[10] in m && REQUIRED[11] in m && REQUIRED[12] in m && REQUIRED[13] in m;
    }
  }

  predicate ListsReadable(m: Dict) {
    && List(m, "provider_events").Some? && ReadAll(ReadEvent, List(m, "provider_events").value).Some?
    && List(m, "local_only_hashes").Some? && ReadAll(ReadLocalHash, List(m, "local_only_hashes").value).Some?
    && List(m, "single_provider_exposure").Some?
    && ReadAll(ReadExposure, List(m, "single_provider_exposure").value).Some?
    && ReadDomains(m).Some?
  }

  lemma ListsRead(m: Dict)
    requires Complete(m)
    ensures ListsReadable(m) <==> ListsTyped(m)
    ensures ListsReadable(m) ==>
              var v := View(m);
              && ReadAll(ReadEvent, List(m, "provider_events").value).value == v.events
              && ReadAll(ReadLocalHash, List(m, "local_only_hashes").value).value == v.localHashes
              && ReadAll(ReadExposure, List(m, "single_provider_exposure").value).value == v.exposures
              && ReadDomains(m).value == v.domains
  {
    EventsRead(m);
    LocalsRead(m);
    ExposuresRead(m);
    DomainsRead(m);
    hide ReadAll, ReadDomains, IsList, ReadEvent, ReadExposure, ReadLocalHash, List, TextAt, NumAt, BoolAt,
      SignatureText, HasDomains, ItemsAt, EventTyped, LocalTyped, ExposureTyped, DomainTyped;
  }

  lemma ReadIsParts(m: Dict)
    ensures Read(m).Some? <==> ScalarsReadable(m) && ListsReadable(m)
    ensures Read(m).Some? ==>
              Read(m).value == Receipt(
                PlainText(m, "run_id").value, PlainText(m, "receipt_hash").value,
                NullableText(m, "prev_receipt_hash").value, ReadSignature(m), PlainText(m, "signing_key_id").value,
                ReadAll(ReadEvent, List(m, "provider_events").value).value,
                ReadAll(ReadLocalHash, List(m, "local_only_hashes").value).value,
                ReadAll(ReadExposure, List(m, "single_provider_exposure").value).value, ReadDomains(m).value,
                MaybeRatio(m, "max_single_seat_exposure").value,
                MaybeRatio(m, "max_single_trust_domain_exposure").value,
                Ratio(m, "max_single_provider_exposure").value,
                MaybeBool(m, "no_single_trust_domain_received_all_fragments").value)
  {
    hide PlainText, NullableText, ReadSignature, ReadAll, List, ReadDomains, MaybeRatio, Ratio, MaybeBool, ReadEvent,
      ReadLocalHash, ReadExposure;
  }

  /** The verifier has something to look at exactly when the receipt is well typed, and looks at what is there. */
  lemma Readable(m: Dict)
    ensures HasRequired(m) && Read(m).Some? <==> WellTyped(m)
    ensures WellTyped(m) ==> Read(m).value == View(m)
  {
    RequiredAre(m);
    if Complete(m) {
      ScalarsRead(m);
      ListsRead(m);
      ReadIsParts(m);
      hide Complete, HasRequired, Read, ScalarsReadable, ListsReadable, IsList, IsNum, AbsentOr, HasDomains, View;
    }
  }
}
