/**
  The producer of live-run receipts: exposure accounting over the single-read buffers, the
  receipt body, and signing.
 */
module Producer {
  import opened Wrappers
  import opened Text
  import opened JsonText
  import opened Json
  import opened Ratios
  import opened Ledger
  import opened Platform
  import opened Receipts
  import opened Replace
  import Utf8

  datatype Kind = Anthropic | OpenAI

  function KindText(k: Kind): string {
    if k == Anthropic then "anthropic" else "openai"
  }

  /** One fragment bound to one adapter. */
  datatype Seat = Seat(fid: string, kind: Kind, host: string, model: string) {
    function Provider(): string {
      (if kind == Anthropic then "byok_anthropic_" else "byok_openai_") + fid
    }
  }

  datatype Completion = Complete | Truncated | Unknown

  function CompletionText(c: Completion): string {
    match c
    case Complete => "complete"
    case Truncated => "truncated"
    case Unknown => "unknown"
  }

  datatype Answer = Answer(text: string, completion: Completion, usage: Option<Json>)

  /**
    A local-only value as the run uses it: the text looked for in the payloads, and the text
    hashed for the receipt.  Python keeps lone surrogates when it loads JSON: a text with one is
    never part of a decoded payload (`looked` is None) and cannot be encoded (`hashed` is None).
   */
  datatype LocalValue = LocalValue(looked: Option<string>, hashed: Option<string>)

  type Locals = map<string, LocalValue>

  /** A string stands for itself; any other value is looked for as `str` and hashed as `json.dumps` writes it. */
  function LocalOf(p: Platform, v: Json): LocalValue {
    if v.Str? then LocalValue(Some(v.s), Some(v.s)) else LocalValue(Some(p.str(v)), Some(p.dumps(v)))
  }

  function LocalsOf(p: Platform, m: Dict): Locals {
    map k | k in m :: LocalOf(p, m[k])
  }

  /**
    The buffers of one run; each was read from disk once.  The masking plan may have no
    `task_type`, or one that JSON cannot write, such as a date.
   */
  datatype Inputs = Inputs(original: string, payloads: map<string, string>, localOnly: Locals, taskType: Option<Json>)

  function TaskOf(inputs: Inputs): Json {
    if inputs.taskType.Some? then inputs.taskType.value else Null
  }

  function HashedText(v: LocalValue): string {
    if v.hashed.Some? then v.hashed.value else ""
  }

  /** Everything that goes into the receipt body can be written. */
  predicate Sealable(inputs: Inputs) {
    inputs.taskType.Some? && forall k :: k in inputs.localOnly ==> inputs.localOnly[k].hashed.Some?
  }

  /** Every seat has its payload, and no two seats share a fragment. */
  predicate SeatsFit(inputs: Inputs, seats: seq<Seat>) {
    && (forall i :: 0 <= i < |seats| ==> seats[i].fid in inputs.payloads)
    && (forall i, j :: 0 <= i < j < |seats| ==> seats[i].fid != seats[j].fid)
  }

  function TextHash(p: Platform, text: string): string {
    p.sha256(Utf8.Encode(Normalize(text)))
  }

  // ---------- exposure_view_from_texts ----------

  datatype SeatInfo = SeatInfo(chars: nat, ratio: real, hash: string)

  function SeatRatio(chars: nat, total: nat): real {
    if total == 0 then 0.0 else Round6(chars as real / total as real)
  }

  function InfoOf(p: Platform, original: string, payload: string): SeatInfo {
    SeatInfo(|payload|, SeatRatio(|payload|, |original|), TextHash(p, payload))
  }

  /** An empty original with a payload that discloses something is refused. */
  predicate UnderReports(original: string, payloads: map<string, string>) {
    original == "" && exists f :: f in payloads && payloads[f] != ""
  }

  datatype Exposure = Refused | Exposed(per: map<string, SeatInfo>, max: real, noneSawFull: bool)

  function InfoMap(p: Platform, original: string, payloads: map<string, string>): map<string, SeatInfo> {
    map f | f in payloads :: InfoOf(p, original, payloads[f])
  }

  function RatiosOf(per: map<string, SeatInfo>): map<string, real> {
    map f | f in per :: per[f].ratio
  }

  function ExposureView(p: Platform, original: string, payloads: map<string, string>): Exposure {
    if UnderReports(original, payloads) then Refused
    else
      var per := InfoMap(p, original, payloads);
      Exposed(per, Round6(MaxValue(RatiosOf(per))), !SawFull(original, payloads))
  }

  predicate SawFull(original: string, payloads: map<string, string>) {
    exists f :: f in payloads && payloads[f] == original
  }

  /** The loop of `exposure_view_from_texts`: fills `per` and raises the flag payload by payload. */
  method FillView(p: Platform, original: string, payloads: map<string, string>)
    returns (per: map<string, SeatInfo>, sawFull: bool)
    ensures per == InfoMap(p, original, payloads)
    ensures sawFull == SawFull(original, payloads)
  {
    hide InfoOf;
    per, sawFull := map[], false;
    var left := payloads.Keys;
    while left != {}
      invariant left <= payloads.Keys && per.Keys == payloads.Keys - left
      invariant forall f :: f in per ==> per[f] == InfoOf(p, original, payloads[f])
      invariant sawFull <==> exists f :: f in per && payloads[f] == original
    {
      var f :| f in left;
      left := left - {f};
      per := per[f := InfoOf(p, original, payloads[f])];
      if payloads[f] == original {
        sawFull := true;
      }
    }
  }

  /** `exposure_view_from_texts` */
  method ComputeExposure(p: Platform, original: string, payloads: map<string, string>) returns (e: Exposure)
    ensures e == ExposureView(p, original, payloads)
  {
    if UnderReports(original, payloads) {
      return Refused;
    }
    var per, sawFull := FillView(p, original, payloads);
    e := Exposed(per, Round6(MaxValue(RatiosOf(per))), !sawFull);
  }

  // ---------- trust_domain_view ----------

  function ShareOf(p: Platform, inputs: Inputs, s: Seat): Share
    requires s.fid in inputs.payloads
  {
    Share(p.trustDomain(s.host), s.fid, SeatRatio(|inputs.payloads[s.fid]|, |inputs.original|))
  }

  function SeatShares(p: Platform, inputs: Inputs, seats: seq<Seat>): (r: seq<Share>)
    requires SeatsFit(inputs, seats)
    ensures |r| == |seats| && forall i :: 0 <= i < |r| ==> r[i] == ShareOf(p, inputs, seats[i])
  {
    seq(|seats|, i requires 0 <= i < |seats| => ShareOf(p, inputs, seats[i]))
  }

  function ShareRatios(shares: seq<Share>): (r: seq<real>)
    ensures |r| == |shares| && forall i :: 0 <= i < |r| ==> r[i] == shares[i].ratio
  {
    seq(|shares|, i requires 0 <= i < |shares| => shares[i].ratio)
  }

  datatype View = View(shares: seq<Share>, totals: Totals, maxSeat: real, maxDomain: real, noDomainHasAll: bool)

  function ViewOf(shares: seq<Share>): View {
    var t := Accumulate(shares);
    View(shares, t, Round6(MaxOf(ShareRatios(shares))), Round6(MaxValue(t.ratio)),
         !SomeDomainHasAll(t, AllSeats(shares)))
  }

  /** Creating a missing entry and then adding to it is one ledger step. */
  lemma SetDefaultThenAdd(t: Totals, s: Share)
    requires t.ratio.Keys == t.seats.Keys
    ensures var d := s.domain;
            var u := if d in t.ratio then t else Totals(t.ratio[d := 0.0], t.seats[d := []]);
            Totals(u.ratio[d := Round6(u.ratio[d] + s.ratio)], u.seats[d := u.seats[d] + [s.seat]]) == Credit(t, s)
  {
    var d := s.domain;
    if d !in t.ratio {
      assert t.ratio[d := 0.0][d := Round6(0.0 + s.ratio)] == t.ratio[d := Round6(0.0 + s.ratio)];
      assert t.seats[d := []][d := [] + [s.seat]] == t.seats[d := [] + [s.seat]];
    }
  }

  lemma NothingAccumulated()
    ensures Accumulate([]) == EMPTY
  {
  }

  /** `trust_domain_view`: the entry of a seat's domain is created once and then changed in place. */
  method ComputeView(p: Platform, inputs: Inputs, seats: seq<Seat>) returns (v: View)
    requires SeatsFit(inputs, seats)
    ensures v == ViewOf(SeatShares(p, inputs, seats))
  {
    hide Accumulate, SomeDomainHasAll, MaxValue, MaxOf, AllSeats, Round6, Credit, RatioAt, SeatsAt, SeatsIn, Domains;
    var shares: seq<Share>, domains := [], EMPTY;
    assert Accumulate([]) == EMPTY by {
      NothingAccumulated();
    }
    ghost var all := SeatShares(p, inputs, seats);
    for i := 0 to |seats|
      invariant shares == all[..i]
      invariant domains == Accumulate(shares)
    {
      var share := ShareOf(p, inputs, seats[i]);
      var d := share.domain;
      AccumulatePartitions(shares);
      SetDefaultThenAdd(domains, share);
      AccumulateNext(shares, share);
      if d !in domains.ratio {
        domains := Totals(domains.ratio[d := 0.0], domains.seats[d := []]);
      }
      domains := Totals(domains.ratio[d := Round6(domains.ratio[d] + share.ratio)],
                        domains.seats[d := domains.seats[d] + [share.seat]]);
      shares := shares + [share];
    }
    assert all[..|seats|] == all;
    v := View(shares, domains, Round6(MaxOf(ShareRatios(shares))), Round6(MaxValue(domains.ratio)),
              !SomeDomainHasAll(domains, AllSeats(shares)));
  }

  // ---------- build_receipt_body ----------

  datatype SeatEvent = SeatEvent(
    provider: string, seat: string, kind: Kind, domain: string, payloadHash: string, payloadChars: nat,
    responseHash: Option<string>, responseChars: Option<nat>, host: string, model: string,
    answer: Option<Answer>)

  /** The event of one seat; an empty answer text counts as no response. */
  function EventOf(p: Platform, inputs: Inputs, s: Seat, reply: Option<Answer>): SeatEvent
    requires s.fid in inputs.payloads
  {
    var info := InfoOf(p, inputs.original, inputs.payloads[s.fid]);
    var text := if reply.Some? then reply.value.text else "";
    SeatEvent(s.Provider(), s.fid, s.kind, p.trustDomain(s.host), info.hash, info.chars,
              if text != "" then Some(TextHash(p, text)) else Option.None,
              if text != "" then Some(|text|) else Option.None,
              s.host, s.model, reply)
  }

  function MaybeStr(o: Option<string>): Json {
    if o.Some? then Str(o.value) else Null
  }

  function MaybeInt(o: Option<nat>): Json {
    if o.Some? then Int(o.value) else Null
  }

  /** The members every event has. */
  function BareEvent(e: SeatEvent): Dict {
    map["provider_id" := Str(e.provider),
        "seat_id" := Str(e.seat),
        "provider_kind" := Str(KindText(e.kind)),
        "trust_domain" := Str(e.domain),
        "payload_sha256" := Str(e.payloadHash),
        "payload_chars" := Int(e.payloadChars),
        "response_sha256" := MaybeStr(e.responseHash),
        "response_chars" := MaybeInt(e.responseChars),
        "event_type" := Str(if e.responseHash.Some? then "live_response" else "no_response"),
        "endpoint_host" := Str(e.host),
        "model" := Str(e.model)]
  }

  /** And those a response adds. */
  function EventDict(e: SeatEvent): Dict {
    if e.answer.None? then BareEvent(e)
    else
      var a := e.answer.value;
      var d := BareEvent(e)["completion" := Str(CompletionText(a.completion))]
                           ["response_truncated" := Bool(a.completion == Truncated)];
      if a.usage.Some? then d["usage" := a.usage.value] else d
  }

  function FloatOf(p: Platform, x: real): Json {
    var t := p.floatText(x);
    if IsNumber(t) && !IsInteger(t) then Float(t) else Null
  }

  function ExposureDict(p: Platform, provider: string, ratio: real): Dict {
    map["provider_id" := Str(provider), "exposure_ratio" := FloatOf(p, ratio)]
  }

  function LocalDict(p: Platform, field: string, v: LocalValue): Dict {
    map["field" := Str(field), "sha256" := Str(TextHash(p, HashedText(v)))]
  }

  function Strings(xs: seq<string>): (r: seq<Json>)
    ensures |r| == |xs| && forall i :: 0 <= i < |r| ==> r[i] == Str(xs[i])
  {
    seq(|xs|, i requires 0 <= i < |xs| => Str(xs[i]))
  }

  function DomainDict(p: Platform, d: string, t: Totals): Dict {
    map["trust_domain" := Str(d), "exposure_ratio" := FloatOf(p, RatioAt(t, d)),
        "seat_ids" := Arr(Strings(SeatsAt(t, d)))]
  }

  type Replies = map<string, Option<Answer>>

  function ReplyOf(replies: Replies, fid: string): Option<Answer> {
    if fid in replies then replies[fid] else Option.None
  }

  function Events(p: Platform, inputs: Inputs, seats: seq<Seat>, replies: Replies): (r: seq<SeatEvent>)
    requires SeatsFit(inputs, seats)
    ensures |r| == |seats|
    ensures forall i :: 0 <= i < |r| ==> r[i] == EventOf(p, inputs, seats[i], ReplyOf(replies, seats[i].fid))
  {
    seq(|seats|, i requires 0 <= i < |seats| => EventOf(p, inputs, seats[i], ReplyOf(replies, seats[i].fid)))
  }

  function EventItems(es: seq<SeatEvent>): (r: seq<Json>)
    ensures |r| == |es| && forall i :: 0 <= i < |r| ==> r[i] == Obj(EventDict(es[i]))
  {
    seq(|es|, i requires 0 <= i < |es| => Obj(EventDict(es[i])))
  }

  function ExposureItems(p: Platform, seats: seq<Seat>, shares: seq<Share>): (r: seq<Json>)
    requires |shares| == |seats|
    ensures |r| == |seats|
    ensures forall i :: 0 <= i < |r| ==> r[i] == Obj(ExposureDict(p, seats[i].Provider(), shares[i].ratio))
  {
    seq(|seats|, i requires 0 <= i < |seats| => Obj(ExposureDict(p, seats[i].Provider(), shares[i].ratio)))
  }

  function LocalItems(p: Platform, localOnly: Locals): (r: seq<Json>)
    ensures |r| == |SortedKeys(ByCodePoint, localOnly.Keys)|
    ensures forall i :: 0 <= i < |r| ==>
                var k := SortedKeys(ByCodePoint, localOnly.Keys)[i]; r[i] == Obj(LocalDict(p, k, localOnly[k]))
  {
    var ks := SortedKeys(ByCodePoint, localOnly.Keys);
    seq(|ks|, i requires 0 <= i < |ks| => Obj(LocalDict(p, ks[i], localOnly[ks[i]])))
  }

  function DomainItems(p: Platform, t: Totals): (r: seq<Json>)
    ensures |r| == |SortedKeys(ByCodePoint, t.ratio.Keys)|
    ensures forall i :: 0 <= i < |r| ==>
                r[i] == Obj(DomainDict(p, SortedKeys(ByCodePoint, t.ratio.Keys)[i], t))
  {
    var ks := SortedKeys(ByCodePoint, t.ratio.Keys);
    seq(|ks|, i requires 0 <= i < |ks| => Obj(DomainDict(p, ks[i], t)))
  }

  /** What a body takes from outside the buffers: identifier, manifest and clock. */
  datatype Context = Context(runId: string, policyId: Json, provenance: Json)

  function RunMembers(runId: Json, taskType: Json, policyId: Json, prev: Json, provenance: Json): Dict {
    map["run_id" := runId,
        "task_type" := taskType,
        "policy_id" := policyId,
        "prev_receipt_hash" := prev,
        "masking_level" := Str("guided_curated_p0"),
        "provenance" := provenance]
  }

  function ListMembers(events: Json, locals: Json, exposures: Json, domains: Json): Dict {
    map["provider_events" := events,
        "local_only_hashes" := locals,
        "single_provider_exposure" := exposures,
        "trust_domain_exposure" := domains]
  }

  function FigureMembers(maxSeat: Json, maxDomain: Json, flag: Json, noneSawFull: Json): Dict {
    map["max_single_seat_exposure" := maxSeat,
        "max_single_trust_domain_exposure" := maxDomain,
        "no_single_trust_domain_received_all_fragments" := flag,
        "max_single_provider_exposure" := maxDomain,
        "no_single_provider_saw_full" := noneSawFull]
  }

  function BodyDict(p: Platform, c: Context, inputs: Inputs, events: seq<Json>, exposures: seq<Json>, v: View,
                    noneSawFull: bool, prev: Option<string>): Dict {
    RunMembers(Str(c.runId), TaskOf(inputs), c.policyId, MaybeStr(prev), c.provenance)
    + ListMembers(Arr(events), Arr(LocalItems(p, inputs.localOnly)), Arr(exposures), Arr(DomainItems(p, v.totals)))
    + FigureMembers(FloatOf(p, v.maxSeat), FloatOf(p, v.maxDomain), Bool(v.noDomainHasAll), Bool(noneSawFull))
  }

  function Body(p: Platform, c: Context, inputs: Inputs, seats: seq<Seat>, replies: Replies, prev: Option<string>): Dict
    requires SeatsFit(inputs, seats)
  {
    var shares := SeatShares(p, inputs, seats);
    BodyDict(p, c, inputs, EventItems(Events(p, inputs, seats, replies)), ExposureItems(p, seats, shares),
             ViewOf(shares), !SawFull(inputs.original, inputs.payloads), prev)
  }

  datatype BuildResult = UnderReported | DuplicateIds | Unwritable | Built(body: Dict)

  function EventSeats(es: seq<SeatEvent>): (r: seq<string>)
    ensures |r| == |es| && forall i :: 0 <= i < |r| ==> r[i] == es[i].seat
  {
    seq(|es|, i requires 0 <= i < |es| => es[i].seat)
  }

  function EventProviders(es: seq<SeatEvent>): (r: seq<string>)
    ensures |r| == |es| && forall i :: 0 <= i < |r| ==> r[i] == es[i].provider
  {
    seq(|es|, i requires 0 <= i < |es| => es[i].provider)
  }

  /** The loop over the seats: one event and one exposure entry is appended for each. */
  method AppendSeats(p: Platform, inputs: Inputs, seats: seq<Seat>, replies: Replies, per: map<string, SeatInfo>)
    returns (events: seq<SeatEvent>, exposures: seq<Json>)
    requires SeatsFit(inputs, seats) && per == InfoMap(p, inputs.original, inputs.payloads)
    ensures events == Events(p, inputs, seats, replies)
    ensures exposures == ExposureItems(p, seats, SeatShares(p, inputs, seats))
  {
    hide EventOf, ExposureDict, SortedKeys;
    events, exposures := [], [];
    for i := 0 to |seats|
      invariant |events| == |exposures| == i
      invariant forall j :: 0 <= j < i ==> events[j] == EventOf(p, inputs, seats[j], ReplyOf(replies, seats[j].fid))
      invariant forall j :: 0 <= j < i ==>
                  exposures[j] == Obj(ExposureDict(p, seats[j].Provider(), ShareOf(p, inputs, seats[j]).ratio))
    {
      var s := seats[i];
      events := events + [EventOf(p, inputs, s, ReplyOf(replies, s.fid))];
      exposures := exposures + [Obj(ExposureDict(p, s.Provider(), per[s.fid].ratio))];
    }
  }

  lemma IdsDistinct(p: Platform, inputs: Inputs, seats: seq<Seat>, replies: Replies)
    requires SeatsFit(inputs, seats)
    ensures Unique(EventSeats(Events(p, inputs, seats, replies)))
    ensures Unique(EventProviders(Events(p, inputs, seats, replies)))
  {
    ProvidersDistinct(seats);
    var es := Events(p, inputs, seats, replies);
    assert forall i :: 0 <= i < |es| ==> es[i].seat == seats[i].fid && es[i].provider == seats[i].Provider();
  }

  /**
    `build_receipt_body`: with one seat per fragment the refusal of duplicate ids never happens,
    so the only ways not to get a body are an empty original with non-empty payloads, and a task
    type or local-only value that cannot be written, which is first noticed here.
   */
  method BuildBody(p: Platform, c: Context, inputs: Inputs, seats: seq<Seat>, replies: Replies, prev: Option<string>)
    returns (r: BuildResult)
    requires SeatsFit(inputs, seats)
    ensures r == if UnderReports(inputs.original, inputs.payloads) then UnderReported
                 else if !Sealable(inputs) then Unwritable
                 else Built(Body(p, c, inputs, seats, replies, prev))
  {
    var exposure := ComputeExposure(p, inputs.original, inputs.payloads);
    if exposure.Refused? {
      return UnderReported;
    }
    var v := ComputeView(p, inputs, seats);
    var events, exposures := AppendSeats(p, inputs, seats, replies, exposure.per);
    IdsDistinct(p, inputs, seats, replies);
    if !Unique(EventSeats(events)) || !Unique(EventProviders(events)) {
      return DuplicateIds;
    }
    if !Sealable(inputs) {
      return Unwritable;
    }
    r := Built(BodyDict(p, c, inputs, EventItems(events), exposures, v, exposure.noneSawFull, prev));
  }

  /** Provider ids of different fragments differ, whatever their kinds. */
  lemma ProviderInjective(a: Seat, b: Seat)
    requires a.Provider() == b.Provider()
    ensures a.fid == b.fid && a.kind == b.kind
  {
    var x, y := "byok_anthropic_", "byok_openai_";
    assert a.Provider()[5] == if a.kind == Anthropic then 'a' else 'o';
    assert b.Provider()[5] == if b.kind == Anthropic then 'a' else 'o';
    var k := if a.kind == Anthropic then |x| else |y|;
    assert a.Provider()[k..] == a.fid && b.Provider()[k..] == b.fid;
  }

  lemma ProvidersDistinct(seats: seq<Seat>)
    requires forall i, j :: 0 <= i < j < |seats| ==> seats[i].fid != seats[j].fid
    ensures forall i, j :: 0 <= i < j < |seats| ==> seats[i].Provider() != seats[j].Provider()
  {
    forall i, j | 0 <= i < j < |seats| ensures seats[i].Provider() != seats[j].Provider() {
      if seats[i].Provider() == seats[j].Provider() {
        ProviderInjective(seats[i], seats[j]);
      }
    }
  }

  // ---------- sign_receipt ----------

  function SignatureDict(p: Platform, key: PrivateKey, hash: string): Dict {
    map["alg" := Str("Ed25519"), "value" := Str(p.base64(p.sign(key, Utf8.Encode(hash))))]
  }

  function Unhashed(body: Dict, keyId: string): Dict {
    body["signing_key_id" := Str(keyId)] - UNHASHED
  }

  function Signed(p: Platform, key: PrivateKey, keyId: string, body: Dict): Dict {
    var u := Unhashed(body, keyId);
    var hash := ReceiptHash(p, u);
    u["receipt_hash" := Str(hash)]["signature" := Obj(SignatureDict(p, key, hash))]
  }

  /** `sign_receipt`: members are set and popped on a copy, one step at a time. */
  method SignReceipt(p: Platform, key: PrivateKey, keyId: string, body: Dict) returns (receipt: Dict)
    ensures receipt == Signed(p, key, keyId, body)
    ensures BodyOf(receipt) == Unhashed(body, keyId)
    ensures "receipt_hash" in receipt && receipt["receipt_hash"] == Str(ReceiptHash(p, receipt))
  {
    receipt := body;
    receipt := receipt["signing_key_id" := Str(keyId)];
    receipt := receipt - {"receipt_hash"};
    receipt := receipt - {"signature"};
    assert receipt == Unhashed(body, keyId);
    assert BodyOf(receipt) == receipt;
    var hash := ReceiptHash(p, receipt);
    receipt := receipt["receipt_hash" := Str(hash)];
    receipt := receipt["signature" := Obj(SignatureDict(p, key, hash))];
    SignedBody(p, key, keyId, body);
  }

  lemma SignedBody(p: Platform, key: PrivateKey, keyId: string, body: Dict)
    ensures BodyOf(Signed(p, key, keyId, body)) == Unhashed(body, keyId)
    ensures BodyOf(Unhashed(body, keyId)) == Unhashed(body, keyId)
  {
  }
}
