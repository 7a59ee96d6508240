/** The receipt verifier: what it reads from a receipt, and every check it makes. */
module Receipts {
  import opened Wrappers
  import opened Text
  import opened JsonText
  import opened Json
  import opened Ratios
  import opened Ledger
  import opened Platform
  import Utf8

  // ---------- the verifier's regular expressions ----------

  // `$` also matches before a final newline, so each pattern admits one extra line feed.

  function DropNewline(s: string): string {
    if s != "" && s[|s| - 1] as int == 10 then s[..|s| - 1] else s
  }

  predicate Hex64(s: string) {
    HexDigest(DropNewline(s))
  }

  predicate IsCrockford(c: char) {
    '0' <= c <= '9' || 'A' <= c <= 'H' || c == 'J' || c == 'K' || c == 'M' || c == 'N' || 'P' <= c <= 'T'
    || 'V' <= c <= 'Z'
  }

  predicate Ulid(s: string) {
    var t := DropNewline(s);
    |t| == 26 && forall i :: 0 <= i < |t| ==> IsCrockford(t[i])
  }

  predicate IsKeyIdChar(c: char) {
    'A' <= c <= 'Z' || 'a' <= c <= 'z' || '0' <= c <= '9' || c == '.' || c == '_' || c == '-'
  }

  predicate KeyId(s: string) {
    var t := DropNewline(s);
    1 <= |t| <= 64 && forall i :: 0 <= i < |t| ==> IsKeyIdChar(t[i])
  }

  lemma DigestIsHex64(s: string)
    requires HexDigest(s)
    ensures Hex64(s)
  {
    assert IsLowerHex(s[63]);
  }

  /** The hash pattern: 64 hexadecimal digits, and possibly one line feed after them. */
  lemma Hex64Means(s: string)
    ensures Hex64(s) <==> HexDigest(s) || (|s| == 65 && s[64] as int == 10 && HexDigest(s[..64]))
  {
    if HexDigest(s) {
      DigestIsHex64(s);
    }
  }

  // ---------- what the verifier reads ----------

  datatype Event = Event(
    provider: Option<string>,
    seat: Option<string>,
    domain: Option<string>,
    host: Option<string>,
    payloadHash: string,
    completion: Option<string>,
    truncated: Option<bool>)

  datatype SeatExposure = SeatExposure(provider: string, ratio: real)

  datatype DomainEntry = DomainEntry(domain: string, ratio: real, seats: Option<seq<string>>)

  datatype Receipt = Receipt(
    runId: string,
    hash: string,
    prev: Option<string>,
    signature: Option<string>,        // None unless {alg: 'Ed25519', value: <non-empty>}
    keyId: string,
    events: seq<Event>,
    localHashes: seq<string>,
    exposures: seq<SeatExposure>,
    domains: Option<seq<DomainEntry>>,
    maxSeat: Option<real>,
    maxDomain: Option<real>,
    maxProvider: real,
    noDomainHasAll: Option<bool>)

  // Readers of one member: `None` when the member has a type the verifier does not handle.

  /** `m[k]` or `m.get(k, "")`. */
  function PlainText(m: Dict, k: string): Option<string> {
    if k !in m then Some("") else if m[k].Str? then Some(m[k].s) else None
  }

  /** Absent, or a string. */
  function MaybeText(m: Dict, k: string): Option<Option<string>> {
    if k !in m then Some(Option.None) else if m[k].Str? then Some(Some(m[k].s)) else None
  }

  /** `m.get(k)`: absent and null read the same. */
  function NullableText(m: Dict, k: string): Option<Option<string>> {
    if k in m && m[k].Null? then Some(Option.None) else MaybeText(m, k)
  }

  function MaybeBool(m: Dict, k: string): Option<Option<bool>> {
    if k !in m then Some(Option.None) else if m[k].Bool? then Some(Some(m[k].b)) else None
  }

  function NumberOf(v: Json): Option<real> {
    match v
    case Int(n) => Some(n as real)
    case Float(lexeme) => Some(LexemeValue(lexeme))
    case _ => None
  }

  function Ratio(m: Dict, k: string): Option<real> {
    if k in m then NumberOf(m[k]) else None
  }

  function MaybeRatio(m: Dict, k: string): Option<Option<real>> {
    if k !in m then Some(Option.None)
    else
      var x :- NumberOf(m[k]);
      Some(Some(x))
  }

  function List(m: Dict, k: string): Option<seq<Json>> {
    if k in m && m[k].Arr? then Some(m[k].items) else None
  }

  /** Reads every item, or nothing. */
  function ReadAll<T>(read: Json -> Option<T>, items: seq<Json>): (r: Option<seq<T>>)
    ensures r.Some? ==> |r.value| == |items|
  {
    if items == [] then Some([])
    else
      var x :- read(items[0]);
      var xs :- ReadAll(read, items[1..]);
      Some([x] + xs)
  }

  function ReadText(v: Json): Option<string> {
    if v.Str? then Some(v.s) else None
  }

  function ReadEvent(v: Json): Option<Event> {
    if !v.Obj? then None
    else
      var provider :- NullableText(v.m, "provider_id");
      var seat :- MaybeText(v.m, "seat_id");
      var domain :- NullableText(v.m, "trust_domain");
      var host :- NullableText(v.m, "endpoint_host");
      var payloadHash :- PlainText(v.m, "payload_sha256");
      var completion :- MaybeText(v.m, "completion");
      var truncated :- MaybeBool(v.m, "response_truncated");
      Some(Event(provider, seat, domain, host, payloadHash, completion, truncated))
  }

  function ReadLocalHash(v: Json): Option<string> {
    if !v.Obj? then None else PlainText(v.m, "sha256")
  }

  function ReadExposure(v: Json): Option<SeatExposure> {
    if !v.Obj? || "provider_id" !in v.m then None
    else
      var provider :- PlainText(v.m, "provider_id");
      var ratio :- Ratio(v.m, "exposure_ratio");
      Some(SeatExposure(provider, ratio))
  }

  function ReadDomain(v: Json): Option<DomainEntry> {
    if !v.Obj? || "trust_domain" !in v.m then None
    else
      var domain :- PlainText(v.m, "trust_domain");
      var ratio :- Ratio(v.m, "exposure_ratio");
      if "seat_ids" !in v.m then Some(DomainEntry(domain, ratio, Option.None))
      else
        var items :- List(v.m, "seat_ids");
        var seats :- ReadAll(ReadText, items);
        Some(DomainEntry(domain, ratio, Some(seats)))
  }

  function ReadDomains(m: Dict): Option<Option<seq<DomainEntry>>> {
    if "trust_domain_exposure" !in m || m["trust_domain_exposure"].Null? then Some(Option.None)
    else
      var items :- List(m, "trust_domain_exposure");
      var entries :- ReadAll(ReadDomain, items);
      Some(Some(entries))
  }

  function ReadSignature(m: Dict): Option<string> {
    if "signature" in m && m["signature"].Obj? then
      var s := m["signature"].m;
      if "alg" in s && s["alg"] == Str("Ed25519") && "value" in s && s["value"].Str? && s["value"].s != ""
      then Some(s["value"].s)
      else None
    else None
  }

  const REQUIRED: seq<string> := [
    "run_id", "task_type", "policy_id", "provider_events", "local_only_hashes", "single_provider_exposure",
    "max_single_provider_exposure", "no_single_provider_saw_full", "prev_receipt_hash", "receipt_hash",
    "signature", "signing_key_id", "masking_level", "provenance"]

  predicate HasRequired(m: Dict) {
    forall i :: 0 <= i < |REQUIRED| ==> REQUIRED[i] in m
  }

  /** The typed view; `None` when some member has a type the verifier does not handle. */
  function Read(m: Dict): Option<Receipt> {
    var runId :- PlainText(m, "run_id");
    var hash :- PlainText(m, "receipt_hash");
    var prev :- NullableText(m, "prev_receipt_hash");
    var keyId :- PlainText(m, "signing_key_id");
    var eventItems :- List(m, "provider_events");
    var events :- ReadAll(ReadEvent, eventItems);
    var localItems :- List(m, "local_only_hashes");
    var localHashes :- ReadAll(ReadLocalHash, localItems);
    var exposureItems :- List(m, "single_provider_exposure");
    var exposures :- ReadAll(ReadExposure, exposureItems);
    var domains :- ReadDomains(m);
    var maxSeat :- MaybeRatio(m, "max_single_seat_exposure");
    var maxDomain :- MaybeRatio(m, "max_single_trust_domain_exposure");
    var maxProvider :- Ratio(m, "max_single_provider_exposure");
    var flag :- MaybeBool(m, "no_single_trust_domain_received_all_fragments");
    Some(Receipt(runId, hash, prev, ReadSignature(m), keyId, events, localHashes, exposures, domains,
                 maxSeat, maxDomain, maxProvider, flag))
  }

  // ---------- shape ----------

  datatype Reason =
    | MissingFields | IllTyped | BadRunId | BadReceiptHash | BadPrevHash | BadSignatureShape | BadKeyId
    | BadPayloadHash | BadCompletion | TruncationContradicts | BadLocalHash
    | DuplicateProvider | DuplicateSeat | DuplicateExposure | DuplicateDomain
    | DomainNotOfHost | SeatOrDomainMissing | NoSeatRatio | DomainsDiffer | RatioDiffers | SeatsDiffer
    | FlagDiffers | MaxDiffers | NoExposureRecorded | SeatMaxDiffers
    | HashMismatch | NoPublicKey | NotBase64 | SignatureInvalid

  datatype Verdict = Valid | Invalid(reason: Reason)

  predicate Unique<T(==)>(xs: seq<T>) {
    forall i, j :: 0 <= i < j < |xs| ==> xs[i] != xs[j]
  }

  /** `len(values) == len(set(values))` */
  lemma {:induction false} UniqueIffNoneLost<T>(xs: seq<T>)
    ensures |set x | x in xs| <= |xs|
    ensures Unique(xs) <==> |set x | x in xs| == |xs|
  {
    if xs != [] {
      var n := |xs| - 1;
      var init, last := xs[..n], xs[n];
      UniqueIffNoneLost(init);
      assert xs == init + [last];
      assert (set x | x in xs) == (set x | x in init) + {last};
      if last in init {
        var i :| 0 <= i < n && init[i] == last;
        assert xs[i] == xs[n];
        assert (set x | x in xs) == (set x | x in init);
      }
    }
  }

  function EventShape(e: Event): Verdict {
    if !Hex64(e.payloadHash) then Invalid(BadPayloadHash)
    else if e.completion.None? then Valid
    else if e.completion.value !in {"complete", "truncated", "unknown"} then Invalid(BadCompletion)
    else if e.truncated.Some? && e.truncated.value != (e.completion.value == "truncated")
    then Invalid(TruncationContradicts)
    else Valid
  }

  /** The first event that fails decides. */
  function EventsShape(events: seq<Event>): (v: Verdict)
    ensures v == Valid <==> forall i :: 0 <= i < |events| ==> EventShape(events[i]) == Valid
  {
    if events == [] then Valid
    else if EventShape(events[0]) != Valid then EventShape(events[0])
    else
      var v := EventsShape(events[1..]);
      assert forall i :: 1 <= i < |events| ==> events[i] == events[1..][i - 1];
      v
  }

  function Providers(events: seq<Event>): (r: seq<Option<string>>)
    ensures |r| == |events| && forall i :: 0 <= i < |r| ==> r[i] == events[i].provider
  {
    seq(|events|, i requires 0 <= i < |events| => events[i].provider)
  }

  /** `[e["seat_id"] for e in events if "seat_id" in e]` */
  function DeclaredSeats(events: seq<Event>): seq<string> {
    if events == [] then []
    else (if events[0].seat.Some? then [events[0].seat.value] else []) + DeclaredSeats(events[1..])
  }

  function ExposureProviders(xs: seq<SeatExposure>): (r: seq<string>)
    ensures |r| == |xs| && forall i :: 0 <= i < |r| ==> r[i] == xs[i].provider
  {
    seq(|xs|, i requires 0 <= i < |xs| => xs[i].provider)
  }

  function DomainNames(ds: seq<DomainEntry>): (r: seq<string>)
    ensures |r| == |ds| && forall i :: 0 <= i < |r| ==> r[i] == ds[i].domain
  {
    seq(|ds|, i requires 0 <= i < |ds| => ds[i].domain)
  }

  /** `_check_shape` after the required members were found. */
  function ShapeVerdict(r: Receipt): Verdict {
    if !Ulid(r.runId) then Invalid(BadRunId)
    else if !Hex64(r.hash) then Invalid(BadReceiptHash)
    else if r.prev.Some? && !Hex64(r.prev.value) then Invalid(BadPrevHash)
    else if r.signature.None? then Invalid(BadSignatureShape)
    else if !KeyId(r.keyId) then Invalid(BadKeyId)
    else if EventsShape(r.events) != Valid then EventsShape(r.events)
    else if exists i :: 0 <= i < |r.localHashes| && !Hex64(r.localHashes[i]) then Invalid(BadLocalHash)
    else if !Unique(Providers(r.events)) then Invalid(DuplicateProvider)
    else if !Unique(DeclaredSeats(r.events)) then Invalid(DuplicateSeat)
    else if !Unique(ExposureProviders(r.exposures)) then Invalid(DuplicateExposure)
    else if r.domains.Some? && !Unique(DomainNames(r.domains.value)) then Invalid(DuplicateDomain)
    else Valid
  }

  // ---------- trust domains ----------

  /** `{e["provider_id"]: e["exposure_ratio"] for e in exposures}` */
  function SeatRatios(xs: seq<SeatExposure>): map<string, real> {
    if xs == [] then map[]
    else SeatRatios(xs[..|xs| - 1])[xs[|xs| - 1].provider := xs[|xs| - 1].ratio]
  }

  predicate HostAgrees(p: Platform, e: Event) {
    e.host.Some? && e.domain.Some? ==> e.domain.value == p.trustDomain(e.host.value)
  }

  /** An event names a seat and a domain, and its provider has a signed ratio. */
  predicate Accountable(e: Event, ratios: map<string, real>) {
    e.seat.Some? && e.domain.Some? && e.provider.Some? && e.provider.value in ratios
  }

  predicate AllAccountable(events: seq<Event>, ratios: map<string, real>) {
    forall i :: 0 <= i < |events| ==> Accountable(events[i], ratios)
  }

  function EventShares(events: seq<Event>, ratios: map<string, real>): (s: seq<Share>)
    requires AllAccountable(events, ratios)
    ensures |s| == |events|
  {
    seq(|events|, i requires 0 <= i < |events| =>
      Share(events[i].domain.value, events[i].seat.value, ratios[events[i].provider.value]))
  }

  /** The first event that cannot be accounted for decides. */
  function AccountVerdict(events: seq<Event>, ratios: map<string, real>): (v: Verdict)
    ensures v == Valid <==> AllAccountable(events, ratios)
  {
    if events == [] then Valid
    else if events[0].seat.None? || events[0].domain.None? then Invalid(SeatOrDomainMissing)
    else if events[0].provider.None? || events[0].provider.value !in ratios then Invalid(NoSeatRatio)
    else
      var v := AccountVerdict(events[1..], ratios);
      assert forall i :: 1 <= i < |events| ==> events[i] == events[1..][i - 1];
      v
  }

  predicate EntryRatioAgrees(d: DomainEntry, t: Totals) {
    Close(d.ratio, RatioAt(t, d.domain))
  }

  predicate EntrySeatsAgree(d: DomainEntry, t: Totals) {
    d.seats.Some? ==> SetOf(d.seats.value) == SetOf(SeatsAt(t, d.domain))
  }

  predicate FieldClose(field: Option<real>, x: real) {
    field.Some? ==> Close(field.value, x)
  }

  /** `_check_max_single_seat` */
  function SeatMaxVerdict(r: Receipt): Verdict {
    var ratios := SeatRatios(r.exposures);
    if r.maxSeat.None? then Valid
    else if ratios == map[] then Invalid(NoExposureRecorded)
    else if !Close(r.maxSeat.value, Round6(MaxValue(ratios))) then Invalid(SeatMaxDiffers)
    else Valid
  }

  function TotalsVerdict(r: Receipt, ds: seq<DomainEntry>, shares: seq<Share>): Verdict {
    var t := Accumulate(shares);
    if SetOf(DomainNames(ds)) != t.ratio.Keys then Invalid(DomainsDiffer)
    else if exists i :: 0 <= i < |ds| && !EntryRatioAgrees(ds[i], t) then Invalid(RatioDiffers)
    else if exists i :: 0 <= i < |ds| && !EntrySeatsAgree(ds[i], t) then Invalid(SeatsDiffer)
    else if r.noDomainHasAll.Some? && r.noDomainHasAll.value != !SomeDomainHasAll(t, AllSeats(shares))
    then Invalid(FlagDiffers)
    else if !FieldClose(r.maxDomain, Round6(MaxValue(t.ratio))) then Invalid(MaxDiffers)
    else if !Close(r.maxProvider, Round6(MaxValue(t.ratio))) then Invalid(MaxDiffers)
    else SeatMaxVerdict(r)
  }

  /** `_check_trust_domain_consistency` */
  function DomainVerdict(p: Platform, r: Receipt): Verdict {
    var ratios := SeatRatios(r.exposures);
    if exists i :: 0 <= i < |r.events| && !HostAgrees(p, r.events[i]) then Invalid(DomainNotOfHost)
    else if r.domains.None? then SeatMaxVerdict(r)
    else if AccountVerdict(r.events, ratios) != Valid then AccountVerdict(r.events, ratios)
    else TotalsVerdict(r, r.domains.value, EventShares(r.events, ratios))
  }

  // ---------- hash, signature, whole receipt ----------

  const UNHASHED: set<string> := {"receipt_hash", "signature"}

  function BodyOf(m: Dict): Dict {
    m - UNHASHED
  }

  function HashedBytes(m: Dict): Bytes {
    CanonicalBytes(Obj(BodyOf(m)))
  }

  function ReceiptHash(p: Platform, m: Dict): string {
    p.sha256(HashedBytes(m))
  }

  /** Base64 and Ed25519 checks, over the UTF-8 bytes of the hex digest. */
  function SignatureVerdict(p: Platform, pub: Option<PublicKey>, r: Receipt): Verdict
    requires r.signature.Some?
  {
    if pub.None? then Invalid(NoPublicKey)
    else
      match p.unbase64(r.signature.value)
      case None => Invalid(NotBase64)
      case Some(sig) =>
        if p.verifies(pub.value, sig, Utf8.Encode(r.hash)) then Valid else Invalid(SignatureInvalid)
  }

  /** `verify_receipt`; no public key stands for a path that yields none. */
  function VerifyReceipt(p: Platform, pub: Option<PublicKey>, m: Dict): Verdict {
    if !HasRequired(m) then Invalid(MissingFields)
    else
      match Read(m)
      case None => Invalid(IllTyped)
      case Some(r) =>
        if ShapeVerdict(r) != Valid then ShapeVerdict(r)
        else if DomainVerdict(p, r) != Valid then DomainVerdict(p, r)
        else if ReceiptHash(p, m) != r.hash then Invalid(HashMismatch)
        else SignatureVerdict(p, pub, r)
  }

  predicate Accepted(p: Platform, pub: Option<PublicKey>, m: Dict) {
    VerifyReceipt(p, pub, m) == Valid
  }
}
