/** What the receipt of a run says, member by member. */
module Contents {
  import opened Wrappers
  import opened Text
  import opened Json
  import opened Ratios
  import opened Ledger
  import opened Platform
  import opened Receipts
  import opened Replace
  import opened Producer
  import opened LiveRun
  import opened RunFacts
  import Conduct
  import Agreement
  import Seats
  import Ulids
  import Utf8

  /** The digest of a text as it would be read from a file. */
  function Digest(p: Platform, text: string): Json {
    Str(p.sha256(Utf8.Encode(Unified(text))))
  }

  lemma TextHashIs(p: Platform, text: string)
    ensures Str(TextHash(p, text)) == Digest(p, text)
  {
    NormalizeIsUnified(text);
  }

  // ---------- one event ----------

  /** What a provider answered, if its transport did not fail. */
  function AnswerIn(r: Reply): Option<Answer> {
    if r.Answered? then Some(r.answer) else None
  }

  const EVENT_MEMBERS: set<string> :=
    {"provider_id", "seat_id", "provider_kind", "trust_domain", "payload_sha256", "payload_chars",
     "response_sha256", "response_chars", "event_type", "endpoint_host", "model"}

  /** Who an event is about, and where its payload went. */
  predicate SaysWho(p: Platform, d: Dict, s: Seat) {
    && Has(d, "provider_id", Str((if s.kind == Anthropic then "byok_anthropic_" else "byok_openai_") + s.fid))
    && Has(d, "seat_id", Str(s.fid))
    && Has(d, "provider_kind", Str(if s.kind == Anthropic then "anthropic" else "openai"))
    && Has(d, "trust_domain", Str(p.trustDomain(s.host)))
    && Has(d, "endpoint_host", Str(s.host))
    && Has(d, "model", Str(s.model))
  }

  /** What was sent and what came back; an empty text counts as no response. */
  predicate SaysWhat(p: Platform, d: Dict, prompt: string, text: string) {
    && Has(d, "payload_sha256", Digest(p, prompt))
    && Has(d, "payload_chars", Int(|prompt|))
    && Has(d, "response_sha256", if text == "" then Null else Digest(p, text))
    && Has(d, "response_chars", if text == "" then Null else Int(|text|))
    && Has(d, "event_type", Str(if text == "" then "no_response" else "live_response"))
  }

  /** How the answer ended; only an event with an answer says so. */
  predicate SaysHow(d: Dict, a: Option<Answer>) {
    && (a.None? ==> d.Keys == EVENT_MEMBERS)
    && (a.Some? ==>
          && d.Keys == EVENT_MEMBERS + {"completion", "response_truncated"} +
                       (if a.value.usage.Some? then {"usage"} else {})
          && Has(d, "completion", Str(match a.value.completion
                                      case Complete => "complete"
                                      case Truncated => "truncated"
                                      case Unknown => "unknown"))
          && Has(d, "response_truncated", Bool(a.value.completion == Truncated))
          && (a.value.usage.Some? ==> Has(d, "usage", a.value.usage.value)))
  }

  predicate EventSays(p: Platform, d: Dict, s: Seat, prompt: string, a: Option<Answer>) {
    SaysWho(p, d, s) && SaysWhat(p, d, prompt, if a.Some? then a.value.text else "") && SaysHow(d, a)
  }

  lemma BareKeys(e: SeatEvent)
    ensures BareEvent(e).Keys == EVENT_MEMBERS
  {
  }

  lemma BareWho(e: SeatEvent)
    ensures var d := BareEvent(e);
            && Has(d, "provider_id", Str(e.provider)) && Has(d, "seat_id", Str(e.seat))
            && Has(d, "provider_kind", Str(KindText(e.kind))) && Has(d, "trust_domain", Str(e.domain))
  {
    hide KindText;
  }

  lemma BareWhere(e: SeatEvent)
    ensures var d := BareEvent(e); Has(d, "endpoint_host", Str(e.host)) && Has(d, "model", Str(e.model))
  {
  }

  lemma BareWhat(e: SeatEvent)
    ensures var d := BareEvent(e);
            && Has(d, "payload_sha256", Str(e.payloadHash)) && Has(d, "payload_chars", Int(e.payloadChars))
            && Has(d, "response_sha256", MaybeStr(e.responseHash))
            && Has(d, "response_chars", MaybeInt(e.responseChars))
  {
    hide MaybeStr, MaybeInt;
  }

  lemma BareType(e: SeatEvent)
    ensures Has(BareEvent(e), "event_type", Str(if e.responseHash.Some? then "live_response" else "no_response"))
  {
  }

  lemma StillHas(e: SeatEvent, k: string, v: Json)
    requires Has(BareEvent(e), k, v) && k in EVENT_MEMBERS
    ensures Has(EventDict(e), k, v)
  {
    hide BareEvent;
    assert "completion" !in EVENT_MEMBERS && "response_truncated" !in EVENT_MEMBERS && "usage" !in EVENT_MEMBERS;
  }

  lemma AnswerSays(e: SeatEvent)
    ensures SaysHow(EventDict(e), e.answer)
  {
    hide BareEvent;
    BareKeys(e);
  }

  lemma WhoIs(p: Platform, inputs: Inputs, s: Seat, a: Option<Answer>)
    requires s.fid in inputs.payloads
    ensures SaysWho(p, EventDict(EventOf(p, inputs, s, a)), s)
  {
    hide BareEvent, EventDict, InfoOf, TextHash, Has;
    var e := EventOf(p, inputs, s, a);
    BareWho(e);
    BareWhere(e);
    StillHas(e, "provider_id", Str(e.provider));
    StillHas(e, "seat_id", Str(e.seat));
    StillHas(e, "provider_kind", Str(KindText(e.kind)));
    StillHas(e, "trust_domain", Str(e.domain));
    StillHas(e, "endpoint_host", Str(e.host));
    StillHas(e, "model", Str(e.model));
  }

  lemma WhatIs(p: Platform, inputs: Inputs, s: Seat, a: Option<Answer>)
    requires s.fid in inputs.payloads
    ensures SaysWhat(p, EventDict(EventOf(p, inputs, s, a)), inputs.payloads[s.fid],
                     if a.Some? then a.value.text else "")
  {
    var e := EventOf(p, inputs, s, a);
    hide BareEvent, EventDict, TextHash, Has, SeatRatio, Digest;
    TextHashIs(p, inputs.payloads[s.fid]);
    TextHashIs(p, if a.Some? then a.value.text else "");
    BareWhat(e);
    BareType(e);
    StillHas(e, "payload_sha256", Str(e.payloadHash));
    StillHas(e, "payload_chars", Int(e.payloadChars));
    StillHas(e, "response_sha256", MaybeStr(e.responseHash));
    StillHas(e, "response_chars", MaybeInt(e.responseChars));
    StillHas(e, "event_type", Str(if e.responseHash.Some? then "live_response" else "no_response"));
  }

  lemma EventIs(p: Platform, inputs: Inputs, s: Seat, a: Option<Answer>)
    requires s.fid in inputs.payloads
    ensures EventSays(p, EventDict(EventOf(p, inputs, s, a)), s, inputs.payloads[s.fid], a)
  {
    hide SaysWho, SaysWhat, SaysHow, EventDict;
    WhoIs(p, inputs, s, a);
    WhatIs(p, inputs, s, a);
    AnswerSays(EventOf(p, inputs, s, a));
  }

  // ---------- the whole receipt ----------

  const BODY_MEMBERS: set<string> :=
    {"run_id", "task_type", "policy_id", "provider_events", "local_only_hashes", "single_provider_exposure",
     "max_single_seat_exposure", "trust_domain_exposure", "max_single_trust_domain_exposure",
     "no_single_trust_domain_received_all_fragments", "max_single_provider_exposure", "no_single_provider_saw_full",
     "prev_receipt_hash", "masking_level", "provenance"}

  const RECEIPT_MEMBERS: set<string> := BODY_MEMBERS + {"signing_key_id", "receipt_hash", "signature"}

  /** Which run, under which plan and policy. */
  predicate SaysRun(m: Machine, inputs: Inputs, d: Dict) {
    && d.Keys == RECEIPT_MEMBERS
    && Has(d, "run_id", Str(Ulids.NewUlid(m.millis, m.random)))
    && inputs.taskType.Some? && Has(d, "task_type", inputs.taskType.value)
    && Has(d, "policy_id", m.policyId) && Has(d, "provenance", m.provenance)
    && Has(d, "masking_level", Str("guided_curated_p0"))
  }

  /** One event per seat, in order. */
  predicate SaysEvents(m: Machine, inputs: Inputs, seats: seq<Seat>, d: Dict)
    requires SeatsFit(inputs, seats)
  {
    && "provider_events" in d && d["provider_events"].Arr? && |d["provider_events"].items| == |seats|
    && forall i :: 0 <= i < |seats| ==>
         EventOfSeat(m.p, d["provider_events"].items[i], inputs, seats[i], AnswerIn(m.reply(i)))
  }

  predicate EventOfSeat(p: Platform, v: Json, inputs: Inputs, s: Seat, a: Option<Answer>)
    requires s.fid in inputs.payloads
  {
    v.Obj? && EventSays(p, v.m, s, inputs.payloads[s.fid], a)
  }

  /** One entry per local-only field, in the order of their names: name and digest, and nothing else. */
  predicate SaysLocals(p: Platform, inputs: Inputs, d: Dict) {
    var ks := SortedKeys(ByCodePoint, inputs.localOnly.Keys);
    && "local_only_hashes" in d && d["local_only_hashes"].Arr? && |d["local_only_hashes"].items| == |ks|
    && forall i :: 0 <= i < |ks| ==> EntryOfField(p, d["local_only_hashes"].items[i], ks[i], inputs.localOnly[ks[i]])
  }

  predicate EntryOfField(p: Platform, v: Json, field: string, value: LocalValue) {
    value.hashed.Some? && v == Obj(map["field" := Str(field), "sha256" := Digest(p, value.hashed.value)])
  }

  /** One ratio per seat: characters sent over characters in the original, to six places. */
  predicate SaysRatios(p: Platform, inputs: Inputs, seats: seq<Seat>, d: Dict)
    requires SeatsFit(inputs, seats)
  {
    && "single_provider_exposure" in d && d["single_provider_exposure"].Arr?
    && |d["single_provider_exposure"].items| == |seats|
    && forall i :: 0 <= i < |seats| ==>
         RatioOfSeat(p, d["single_provider_exposure"].items[i], seats[i], |inputs.payloads[seats[i].fid]|,
                     |inputs.original|)
  }

  predicate RatioOfSeat(p: Platform, v: Json, s: Seat, chars: nat, total: nat) {
    && v.Obj? && v.m.Keys == {"provider_id", "exposure_ratio"}
    && Has(v.m, "provider_id", Str((if s.kind == Anthropic then "byok_anthropic_" else "byok_openai_") + s.fid))
    && NumberOf(v.m["exposure_ratio"]).Some?
    && var x := NumberOf(v.m["exposure_ratio"]).value;
    && IsMicro(x)
    && (total == 0 ==> x == 0.0)
    && (total > 0 ==> -0.5 <= (x - chars as real / total as real) * 1000000.0 <= 0.5)
  }

  /** No payload is the whole original. */
  predicate NobodySawFull(inputs: Inputs) {
    forall f :: f in inputs.payloads ==> inputs.payloads[f] != inputs.original
  }

  /** What no check of the verifier recomputes, and what the signature covers. */
  predicate SaysSealed(m: Machine, inputs: Inputs, d: Dict) {
    && Has(d, "no_single_provider_saw_full", Bool(NobodySawFull(inputs)))
    && Has(d, "signing_key_id", Str("apl-local-demo-key"))
    && "receipt_hash" in d && d["receipt_hash"].Str?
    && d["receipt_hash"].s == m.p.sha256(CanonicalBytes(Obj(d - {"receipt_hash", "signature"})))
    && Has(d, "signature", Obj(map["alg" := Str("Ed25519"),
                                   "value" := Str(m.p.base64(m.p.sign(m.key, Utf8.Encode(d["receipt_hash"].s))))]))
  }

  lemma BodyKeys()
    ensures Agreement.RUN_KEYS + Agreement.LIST_KEYS + Agreement.FIGURE_KEYS == BODY_MEMBERS
  {
  }

  lemma SealedKeys(body: Dict, keyId: string, hash: string, sig: Dict)
    requires body.Keys == BODY_MEMBERS
    ensures Agreement.Sealed(body, keyId, hash, sig).Keys == RECEIPT_MEMBERS
  {
  }

  lemma BodyHasKeys(p: Platform, c: Context, inputs: Inputs, events: seq<Json>, exposures: seq<Json>, v: View,
                    full: bool, prev: Option<string>)
    ensures BodyDict(p, c, inputs, events, exposures, v, full, prev).Keys == BODY_MEMBERS
  {
    BodyKeys();
    Agreement.RunMembersAre(Str(c.runId), TaskOf(inputs), c.policyId, MaybeStr(prev), c.provenance);
    Agreement.ListMembersAre(Arr(events), Arr(LocalItems(p, inputs.localOnly)), Arr(exposures),
                             Arr(DomainItems(p, v.totals)));
    Agreement.FigureMembersAre(FloatOf(p, v.maxSeat), FloatOf(p, v.maxDomain), Bool(v.noDomainHasAll), Bool(full));
    hide RunMembers, ListMembers, FigureMembers, LocalItems, DomainItems, FloatOf, BODY_MEMBERS, Agreement.RUN_KEYS,
      Agreement.LIST_KEYS, Agreement.FIGURE_KEYS;
  }

  /** Members of a body that signing keeps. */
  lemma SealedHas(body: Dict, keyId: string, hash: string, sig: Dict, k: string, v: Json)
    requires Has(body, k, v) && k in BODY_MEMBERS
    ensures Has(Agreement.Sealed(body, keyId, hash, sig), k, v)
  {
    hide Agreement.Sealed;
    assert "receipt_hash" !in BODY_MEMBERS && "signature" !in BODY_MEMBERS && "signing_key_id" !in BODY_MEMBERS;
    Agreement.SealKeeps(body, keyId, hash, sig, k);
  }

  /** The body of a run's receipt, and the members the checks do not pin. */
  lemma BodySays(m: Machine, inputs: Inputs, seats: seq<Seat>, prev: Option<string>)
    requires SeatsFit(inputs, seats)
    ensures var shares := SeatShares(m.p, inputs, seats);
            var replies := Responses(m.reply, seats, |seats|);
            var b := Body(m.p, ContextOf(m), inputs, seats, replies, prev);
            && b.Keys == BODY_MEMBERS
            && Has(b, "run_id", Str(Ulids.NewUlid(m.millis, m.random))) && Has(b, "task_type", TaskOf(inputs))
            && Has(b, "policy_id", m.policyId) && Has(b, "provenance", m.provenance)
            && Has(b, "masking_level", Str("guided_curated_p0"))
            && Has(b, "no_single_provider_saw_full", Bool(NobodySawFull(inputs)))
            && Has(b, "provider_events", Arr(EventItems(Events(m.p, inputs, seats, replies))))
            && Has(b, "local_only_hashes", Arr(LocalItems(m.p, inputs.localOnly)))
            && Has(b, "single_provider_exposure", Arr(ExposureItems(m.p, seats, shares)))
  {
    hide BodyDict, EventItems, LocalItems, ExposureItems, ViewOf, Agreement.ShowsFigures, Ulids.NewUlid, Events,
      SeatShares, Responses;
    var shares := SeatShares(m.p, inputs, seats);
    var items := EventItems(Events(m.p, inputs, seats, Responses(m.reply, seats, |seats|)));
    var full := !SawFull(inputs.original, inputs.payloads);
    var exposures := ExposureItems(m.p, seats, shares);
    assert full == NobodySawFull(inputs);
    BodyHasKeys(m.p, ContextOf(m), inputs, items, exposures, ViewOf(shares), full, prev);
    Agreement.BodyShows(m.p, ContextOf(m), inputs, items, exposures, ViewOf(shares), full, prev);
  }

  lemma SignatureOf(m: Machine, body: Dict)
    ensures var d := Signed(m.p, m.key, LOCAL_KEY_ID, body);
            && Has(d, "signing_key_id", Str("apl-local-demo-key"))
            && "receipt_hash" in d && d["receipt_hash"].Str?
            && d["receipt_hash"].s == m.p.sha256(CanonicalBytes(Obj(d - {"receipt_hash", "signature"})))
            && var sig := m.p.sign(m.key, Utf8.Encode(d["receipt_hash"].s));
            Has(d, "signature", Obj(map["alg" := Str("Ed25519"), "value" := Str(m.p.base64(sig))]))
  {
    hide CanonicalBytes;
    Agreement.SealsAsSigned(m.p, m.key, LOCAL_KEY_ID, body);
    var d := Signed(m.p, m.key, LOCAL_KEY_ID, body);
    var hash := ReceiptHash(m.p, d);
    hide Signed, Unhashed, Agreement.Sealed;
    Agreement.SealAdds(body, LOCAL_KEY_ID, hash, SignatureDict(m.p, m.key, hash));
  }

  lemma ReceiptSealed(m: Machine, inputs: Inputs, seats: seq<Seat>, prev: Option<string>)
    requires SeatsFit(inputs, seats) && inputs.taskType.Some?
    ensures var d := ReceiptOf(m, inputs, seats, prev);
            var shares := SeatShares(m.p, inputs, seats);
            var replies := Responses(m.reply, seats, |seats|);
            && SaysRun(m, inputs, d) && SaysSealed(m, inputs, d)
            && Has(d, "provider_events", Arr(EventItems(Events(m.p, inputs, seats, replies))))
            && Has(d, "local_only_hashes", Arr(LocalItems(m.p, inputs.localOnly)))
            && Has(d, "single_provider_exposure", Arr(ExposureItems(m.p, seats, shares)))
  {
    var shares := SeatShares(m.p, inputs, seats);
    var replies := Responses(m.reply, seats, |seats|);
    var body := Body(m.p, ContextOf(m), inputs, seats, replies, prev);
    var d := Signed(m.p, m.key, LOCAL_KEY_ID, body);
    hide Has, Body, Signed, EventItems, LocalItems, ExposureItems, Events, SeatShares, Responses, Ulids.NewUlid,
      Agreement.Sealed, ReceiptHash, NobodySawFull;
    BodySays(m, inputs, seats, prev);
    SignatureOf(m, body);
    Agreement.SealsAsSigned(m.p, m.key, LOCAL_KEY_ID, body);
    var hash := ReceiptHash(m.p, Unhashed(body, LOCAL_KEY_ID));
    var sig := SignatureDict(m.p, m.key, hash);
    SealedKeys(body, LOCAL_KEY_ID, hash, sig);
    SealedHas(body, LOCAL_KEY_ID, hash, sig, "run_id", Str(Ulids.NewUlid(m.millis, m.random)));
    SealedHas(body, LOCAL_KEY_ID, hash, sig, "task_type", TaskOf(inputs));
    SealedHas(body, LOCAL_KEY_ID, hash, sig, "policy_id", m.policyId);
    SealedHas(body, LOCAL_KEY_ID, hash, sig, "provenance", m.provenance);
    SealedHas(body, LOCAL_KEY_ID, hash, sig, "masking_level", Str("guided_curated_p0"));
    SealedHas(body, LOCAL_KEY_ID, hash, sig, "no_single_provider_saw_full", Bool(NobodySawFull(inputs)));
    SealedHas(body, LOCAL_KEY_ID, hash, sig, "provider_events",
              Arr(EventItems(Events(m.p, inputs, seats, replies))));
    SealedHas(body, LOCAL_KEY_ID, hash, sig, "local_only_hashes", Arr(LocalItems(m.p, inputs.localOnly)));
    SealedHas(body, LOCAL_KEY_ID, hash, sig, "single_provider_exposure", Arr(ExposureItems(m.p, seats, shares)));
  }

  lemma {:induction false} EventsSaid(m: Machine, inputs: Inputs, seats: seq<Seat>, d: Dict)
    requires SeatsFit(inputs, seats) && !Interrupted(m.reply, |seats|)
    requires Has(d, "provider_events", Arr(EventItems(Events(m.p, inputs, seats, Responses(m.reply, seats, |seats|)))))
    ensures SaysEvents(m, inputs, seats, d)
  {
    var replies := Responses(m.reply, seats, |seats|);
    hide EventSays, EventDict, Responses;
    forall i | 0 <= i < |seats|
      ensures EventOfSeat(m.p, d["provider_events"].items[i], inputs, seats[i], AnswerIn(m.reply(i)))
    {
      ResponsesAt(m.reply, seats, |seats|, i);
      EventIs(m.p, inputs, seats[i], AnswerIn(m.reply(i)));
    }
  }

  lemma {:induction false} LocalsSaid(p: Platform, inputs: Inputs, d: Dict)
    requires Sealable(inputs) && Has(d, "local_only_hashes", Arr(LocalItems(p, inputs.localOnly)))
    ensures SaysLocals(p, inputs, d)
  {
    var ks := SortedKeys(ByCodePoint, inputs.localOnly.Keys);
    hide Digest, TextHash;
    forall i | 0 <= i < |ks|
      ensures EntryOfField(p, d["local_only_hashes"].items[i], ks[i], inputs.localOnly[ks[i]])
    {
      TextHashIs(p, HashedText(inputs.localOnly[ks[i]]));
    }
  }

  lemma RatioIs(p: Platform, s: Seat, chars: nat, total: nat)
    requires FloatLaw(p)
    ensures RatioOfSeat(p, Obj(ExposureDict(p, s.Provider(), SeatRatio(chars, total))), s, chars, total)
  {
    var x := SeatRatio(chars, total);
    if total == 0 {
      assert 0.0 * MILLION == 0.0;
    } else {
      RoundIsMicro(chars as real / total as real);
    }
    Agreement.ReadsFloat(p, x);
    hide FloatOf, NumberOf, IsMicro, RoundHalfEven;
  }

  lemma {:induction false} RatiosSaid(p: Platform, inputs: Inputs, seats: seq<Seat>, d: Dict)
    requires SeatsFit(inputs, seats) && FloatLaw(p)
    requires Has(d, "single_provider_exposure", Arr(ExposureItems(p, seats, SeatShares(p, inputs, seats))))
    ensures SaysRatios(p, inputs, seats, d)
  {
    hide RatioOfSeat, ExposureDict, SeatRatio, FloatLaw;
    forall i | 0 <= i < |seats|
      ensures RatioOfSeat(p, d["single_provider_exposure"].items[i], seats[i], |inputs.payloads[seats[i].fid]|,
                          |inputs.original|)
    {
      RatioIs(p, seats[i], |inputs.payloads[seats[i].fid]|, |inputs.original|);
    }
  }

  // ---------- what the buffers are ----------

  lemma BuffersAre(m: Machine, c: Command, plan: Plan)
    requires Settled(m, c, plan)
    ensures m.disk(1, c.original).Some? && plan.inputs.original == Unified(m.disk(1, c.original).value)
    ensures forall i :: 0 <= i < |plan.fs| ==>
              m.disk(2 + i, plan.fs[i].path).Some? &&
              plan.inputs.payloads[plan.fs[i].id] == Unified(m.disk(2 + i, plan.fs[i].path).value)
  {
    PlanBuffers(m, c, plan);
    OriginalIs(m, c, plan.fs);
    forall i | 0 <= i < |plan.fs|
      ensures m.disk(2 + i, plan.fs[i].path).Some? &&
              plan.inputs.payloads[plan.fs[i].id] == Unified(m.disk(2 + i, plan.fs[i].path).value)
    {
      ReadIsNormal(m.disk, 2 + i, plan.fs[i].path);
      NormalizeIsUnified(m.disk(2 + i, plan.fs[i].path).value);
    }
  }

  lemma OriginalIs(m: Machine, c: Command, fs: seq<Fragment>)
    requires LoadInputs(m, c, fs).Some?
    ensures m.disk(1, c.original).Some?
    ensures LoadInputs(m, c, fs).value.original == Unified(m.disk(1, c.original).value)
  {
    hide Payloads, LoadRest;
    NormalizeIsUnified(m.disk(1, c.original).value);
  }

  /** A value of a local-only file: its own text if it is a string, and its JSON text otherwise. */
  lemma LocalTextIs(m: Machine, c: Command, plan: Plan, text: string, d: Dict, k: string)
    requires Settled(m, c, plan) && m.disk(|plan.fs| + 2, c.localOnly) == Some(text)
    requires LoadText(LastWins, text) == Some(Obj(d)) && k in d
    ensures k in plan.inputs.localOnly
    ensures plan.inputs.localOnly[k].hashed == Some(if d[k].Str? then d[k].s else m.p.dumps(d[k]))
  {
    hide LoadText, LoadInputs, ChainGate, LeakFree, Seats.Resolve;
    Conduct.LoadedLocals(m, c, plan.fs);
  }

  /** The receipt of a run, member by member, in terms of what was read, sent and answered. */
  lemma ReceiptContents(m: Machine, c: Command) returns (plan: Plan)
    requires FloatLaw(m.p) && ReceiptIn(Live(m, c).outcome).Some?
    ensures Settled(m, c, plan)
    ensures var d := ReceiptIn(Live(m, c).outcome).value;
            SaysRun(m, plan.inputs, d) && SaysEvents(m, plan.inputs, plan.seats, d) &&
            SaysLocals(m.p, plan.inputs, d) && SaysRatios(m.p, plan.inputs, plan.seats, d) &&
            SaysSealed(m, plan.inputs, d)
  {
    hide Live, ChainGate, SendAndSeal, LoadInputs, LeakFree, RingAccepts, Seats.Resolve, ReceiptOf, Has, SaysRun,
      SaysEvents, SaysLocals, SaysRatios, SaysSealed, EventItems, LocalItems, ExposureItems, FloatLaw;
    plan := PlanOf(m, c);
    SealedOutcome(m, plan.inputs, plan.seats, plan.prev);
    var d := ReceiptOf(m, plan.inputs, plan.seats, plan.prev);
    ReceiptSealed(m, plan.inputs, plan.seats, plan.prev);
    EventsSaid(m, plan.inputs, plan.seats, d);
    LocalsSaid(m.p, plan.inputs, d);
    RatiosSaid(m.p, plan.inputs, plan.seats, d);
  }
}
