/**
  Producer and verifier agree: whatever gets past the gates, the signed body is read back by the
  verifier as what the producer meant, and passes every one of its checks.
 */
module Agreement {
  import opened Wrappers
  import opened Text
  import opened JsonText
  import opened Json
  import opened Ratios
  import opened Ledger
  import opened Platform
  import opened Receipts
  import opened Producer
  import Verify
  import Utf8

  // ---------- what the verifier reads in each produced object ----------

  function SeenEvent(e: SeatEvent): Event {
    Event(Some(e.provider), Some(e.seat), Some(e.domain), Some(e.host), e.payloadHash,
          if e.answer.Some? then Some(CompletionText(e.answer.value.completion)) else Option.None,
          if e.answer.Some? then Some(e.answer.value.completion == Truncated) else Option.None)
  }

  predicate ShowsEvent(m: Dict, e: SeatEvent) {
    && "provider_id" in m && m["provider_id"] == Str(e.provider)
    && "seat_id" in m && m["seat_id"] == Str(e.seat)
    && "trust_domain" in m && m["trust_domain"] == Str(e.domain)
    && "endpoint_host" in m && m["endpoint_host"] == Str(e.host)
    && "payload_sha256" in m && m["payload_sha256"] == Str(e.payloadHash)
  }

  lemma BareEventShows(e: SeatEvent)
    ensures ShowsEvent(BareEvent(e), e)
    ensures "completion" !in BareEvent(e) && "response_truncated" !in BareEvent(e)
  {
  }

  lemma EventDictShows(e: SeatEvent)
    ensures var m := EventDict(e);
            ShowsEvent(m, e) &&
            ("completion" in m <==> e.answer.Some?) && ("response_truncated" in m <==> e.answer.Some?) &&
            (e.answer.Some? ==> m["completion"] == Str(CompletionText(e.answer.value.completion)) &&
                                m["response_truncated"] == Bool(e.answer.value.completion == Truncated))
  {
    BareEventShows(e);
  }

  lemma ReadsEvent(e: SeatEvent)
    ensures ReadEvent(Obj(EventDict(e))) == Some(SeenEvent(e))
  {
    EventDictShows(e);
  }

  lemma ReadsFloat(p: Platform, x: real)
    requires FloatLaw(p) && IsMicro(x)
    ensures NumberOf(FloatOf(p, x)) == Some(x)
  {
    assert WritesFloat(p.floatText(x), x);
  }

  lemma ReadsExposure(p: Platform, provider: string, x: real)
    requires FloatLaw(p) && IsMicro(x)
    ensures ReadExposure(Obj(ExposureDict(p, provider, x))) == Some(SeatExposure(provider, x))
  {
    ReadsFloat(p, x);
  }

  lemma ReadsLocal(p: Platform, field: string, v: LocalValue)
    ensures ReadLocalHash(Obj(LocalDict(p, field, v))) == Some(TextHash(p, HashedText(v)))
  {
  }

  /** If every item reads as expected, the list does. */
  lemma {:induction false} ReadsAll<T>(read: Json -> Option<T>, items: seq<Json>, xs: seq<T>)
    requires |items| == |xs| && forall i :: 0 <= i < |xs| ==> read(items[i]) == Some(xs[i])
    ensures ReadAll(read, items) == Some(xs)
  {
    if xs != [] {
      forall i | 0 <= i < |xs| - 1 ensures read(items[1..][i]) == Some(xs[1..][i]) {
        assert items[1..][i] == items[i + 1] && xs[1..][i] == xs[i + 1];
      }
      ReadsAll(read, items[1..], xs[1..]);
      assert xs == [xs[0]] + xs[1..];
    }
  }

  function SeenDomain(d: string, t: Totals): DomainEntry {
    DomainEntry(d, RatioAt(t, d), Some(SeatsAt(t, d)))
  }

  lemma ReadsDomain(p: Platform, d: string, t: Totals)
    requires FloatLaw(p) && IsMicro(RatioAt(t, d))
    ensures ReadDomain(Obj(DomainDict(p, d, t))) == Some(SeenDomain(d, t))
  {
    ReadsFloat(p, RatioAt(t, d));
    var m := DomainDict(p, d, t);
    assert m["seat_ids"] == Arr(Strings(SeatsAt(t, d)));
    ReadsAll(ReadText, Strings(SeatsAt(t, d)), SeatsAt(t, d));
  }

  function SeenEvents(es: seq<SeatEvent>): (r: seq<Event>)
    ensures |r| == |es| && forall i :: 0 <= i < |r| ==> r[i] == SeenEvent(es[i])
  {
    seq(|es|, i requires 0 <= i < |es| => SeenEvent(es[i]))
  }

  function SeenExposures(seats: seq<Seat>, shares: seq<Share>): (r: seq<SeatExposure>)
    requires |shares| == |seats|
    ensures |r| == |seats|
    ensures forall i :: 0 <= i < |r| ==> r[i] == SeatExposure(seats[i].Provider(), shares[i].ratio)
  {
    seq(|seats|, i requires 0 <= i < |seats| => SeatExposure(seats[i].Provider(), shares[i].ratio))
  }

  function SeenLocals(p: Platform, localOnly: Locals): (r: seq<string>)
    ensures |r| == |SortedKeys(ByCodePoint, localOnly.Keys)|
    ensures forall i :: 0 <= i < |r| ==>
                r[i] == TextHash(p, HashedText(localOnly[SortedKeys(ByCodePoint, localOnly.Keys)[i]]))
  {
    var ks := SortedKeys(ByCodePoint, localOnly.Keys);
    seq(|ks|, i requires 0 <= i < |ks| => TextHash(p, HashedText(localOnly[ks[i]])))
  }

  function SeenDomains(t: Totals): (r: seq<DomainEntry>)
    ensures |r| == |SortedKeys(ByCodePoint, t.ratio.Keys)|
    ensures forall i :: 0 <= i < |r| ==> r[i] == SeenDomain(SortedKeys(ByCodePoint, t.ratio.Keys)[i], t)
  {
    var ks := SortedKeys(ByCodePoint, t.ratio.Keys);
    seq(|ks|, i requires 0 <= i < |ks| => SeenDomain(ks[i], t))
  }

  lemma ReadsEvents(es: seq<SeatEvent>)
    ensures ReadAll(ReadEvent, EventItems(es)) == Some(SeenEvents(es))
  {
    forall i | 0 <= i < |es| ensures ReadEvent(EventItems(es)[i]) == Some(SeenEvents(es)[i]) {
      ReadsEvent(es[i]);
    }
    ReadsAll(ReadEvent, EventItems(es), SeenEvents(es));
  }

  lemma ReadsExposures(p: Platform, seats: seq<Seat>, shares: seq<Share>)
    requires FloatLaw(p) && |shares| == |seats| && AllMicro(shares)
    ensures ReadAll(ReadExposure, ExposureItems(p, seats, shares)) == Some(SeenExposures(seats, shares))
  {
    var items, xs := ExposureItems(p, seats, shares), SeenExposures(seats, shares);
    forall i | 0 <= i < |xs| ensures ReadExposure(items[i]) == Some(xs[i]) {
      ReadsExposure(p, seats[i].Provider(), shares[i].ratio);
    }
    ReadsAll(ReadExposure, items, xs);
  }

  lemma ReadsLocals(p: Platform, localOnly: Locals)
    ensures ReadAll(ReadLocalHash, LocalItems(p, localOnly)) == Some(SeenLocals(p, localOnly))
  {
    var items, xs := LocalItems(p, localOnly), SeenLocals(p, localOnly);
    forall i | 0 <= i < |xs| ensures ReadLocalHash(items[i]) == Some(xs[i]) {
      var k := SortedKeys(ByCodePoint, localOnly.Keys)[i];
      ReadsLocal(p, k, localOnly[k]);
    }
    ReadsAll(ReadLocalHash, items, xs);
  }

  lemma ReadsDomainList(p: Platform, shares: seq<Share>)
    requires FloatLaw(p)
    ensures var t := Accumulate(shares);
            ReadAll(ReadDomain, DomainItems(p, t)) == Some(SeenDomains(t))
  {
    var t := Accumulate(shares);
    TotalsAreMicro(shares);
    var items, xs := DomainItems(p, t), SeenDomains(t);
    forall i | 0 <= i < |xs| ensures ReadDomain(items[i]) == Some(xs[i]) {
      var d := SortedKeys(ByCodePoint, t.ratio.Keys)[i];
      assert d in SortedKeys(ByCodePoint, t.ratio.Keys);
      ReadsDomain(p, d, t);
    }
    ReadsAll(ReadDomain, items, xs);
  }

  // ---------- the whole receipt ----------

  /** The members the verifier looks at, in a signed body. */
  predicate ShowsTop(m: Dict, c: Context, hash: string, keyId: string, sig: Dict, events: seq<Json>,
                     locals: seq<Json>, exposures: seq<Json>, prev: Option<string>) {
    && "run_id" in m && m["run_id"] == Str(c.runId)
    && "receipt_hash" in m && m["receipt_hash"] == Str(hash)
    && "signing_key_id" in m && m["signing_key_id"] == Str(keyId)
    && "signature" in m && m["signature"] == Obj(sig)
    && "provider_events" in m && m["provider_events"] == Arr(events)
    && "local_only_hashes" in m && m["local_only_hashes"] == Arr(locals)
    && "single_provider_exposure" in m && m["single_provider_exposure"] == Arr(exposures)
    && "prev_receipt_hash" in m && m["prev_receipt_hash"] == MaybeStr(prev)
  }

  predicate ShowsFigures(m: Dict, p: Platform, v: View) {
    && "trust_domain_exposure" in m && m["trust_domain_exposure"] == Arr(DomainItems(p, v.totals))
    && "max_single_seat_exposure" in m && m["max_single_seat_exposure"] == FloatOf(p, v.maxSeat)
    && "max_single_trust_domain_exposure" in m && m["max_single_trust_domain_exposure"] == FloatOf(p, v.maxDomain)
    && "max_single_provider_exposure" in m && m["max_single_provider_exposure"] == FloatOf(p, v.maxDomain)
    && "no_single_trust_domain_received_all_fragments" in m
    && m["no_single_trust_domain_received_all_fragments"] == Bool(v.noDomainHasAll)
  }

  /** What is left when only hash, signature and key id are put on top of a body. */
  function Sealed(body: Dict, keyId: string, hash: string, sig: Dict): Dict {
    Unhashed(body, keyId)["receipt_hash" := Str(hash)]["signature" := Obj(sig)]
  }

  lemma SealKeeps(body: Dict, keyId: string, hash: string, sig: Dict, k: string)
    requires k in body && k !in {"receipt_hash", "signature", "signing_key_id"}
    ensures k in Sealed(body, keyId, hash, sig) && Sealed(body, keyId, hash, sig)[k] == body[k]
  {
  }

  lemma SealAdds(body: Dict, keyId: string, hash: string, sig: Dict)
    ensures var m := Sealed(body, keyId, hash, sig);
            && "receipt_hash" in m && m["receipt_hash"] == Str(hash)
            && "signature" in m && m["signature"] == Obj(sig)
            && "signing_key_id" in m && m["signing_key_id"] == Str(keyId)
  {
  }

  const RUN_KEYS: set<string> :=
    {"run_id", "task_type", "policy_id", "prev_receipt_hash", "masking_level", "provenance"}
  const LIST_KEYS: set<string> :=
    {"provider_events", "local_only_hashes", "single_provider_exposure", "trust_domain_exposure"}
  const FIGURE_KEYS: set<string> :=
    {"max_single_seat_exposure", "max_single_trust_domain_exposure", "no_single_trust_domain_received_all_fragments",
     "max_single_provider_exposure", "no_single_provider_saw_full"}

  lemma {:induction false} RunMembersAre(a: Json, b: Json, c: Json, d: Json, e: Json)
    ensures var m := RunMembers(a, b, c, d, e);
            && m.Keys == RUN_KEYS
            && Has(m, "run_id", a) && Has(m, "task_type", b) && Has(m, "policy_id", c)
            && Has(m, "prev_receipt_hash", d) && Has(m, "masking_level", Str("guided_curated_p0"))
            && Has(m, "provenance", e)
  {
    RunMembersFirst(a, b, c, d, e);
    RunMembersLast(a, b, c, d, e);
    RunMembersKeys(a, b, c, d, e);
    hide RunMembers, RUN_KEYS;
  }

  lemma {:induction false} RunMembersKeys(a: Json, b: Json, c: Json, d: Json, e: Json)
    ensures RunMembers(a, b, c, d, e).Keys == RUN_KEYS
  {
  }

  lemma {:induction false} RunMembersFirst(a: Json, b: Json, c: Json, d: Json, e: Json)
    ensures var m := RunMembers(a, b, c, d, e);
            Has(m, "run_id", a) && Has(m, "task_type", b) && Has(m, "policy_id", c)
  {
  }

  lemma {:induction false} RunMembersLast(a: Json, b: Json, c: Json, d: Json, e: Json)
    ensures var m := RunMembers(a, b, c, d, e);
            Has(m, "prev_receipt_hash", d) && Has(m, "masking_level", Str("guided_curated_p0")) &&
            Has(m, "provenance", e)
  {
  }

  lemma {:induction false} ListMembersAre(a: Json, b: Json, c: Json, d: Json)
    ensures var m := ListMembers(a, b, c, d);
            && m.Keys == LIST_KEYS
            && Has(m, "provider_events", a) && Has(m, "local_only_hashes", b)
            && Has(m, "single_provider_exposure", c) && Has(m, "trust_domain_exposure", d)
  {
  }

  lemma {:induction false} FigureMembersAre(a: Json, b: Json, c: Json, d: Json)
    ensures var m := FigureMembers(a, b, c, d);
            && m.Keys == FIGURE_KEYS
            && Has(m, "max_single_seat_exposure", a) && Has(m, "max_single_trust_domain_exposure", b)
            && Has(m, "no_single_trust_domain_received_all_fragments", c)
            && Has(m, "max_single_provider_exposure", b) && Has(m, "no_single_provider_saw_full", d)
  {
  }

  lemma KeysApart()
    ensures RUN_KEYS !! LIST_KEYS && RUN_KEYS !! FIGURE_KEYS && LIST_KEYS !! FIGURE_KEYS
  {
  }

  /** What a part of a body shows, the body shows. */
  lemma JoinShows(a: Dict, b: Dict, c: Dict, k: string, v: Json)
    requires a.Keys !! b.Keys && a.Keys !! c.Keys && b.Keys !! c.Keys
    requires Has(a, k, v) || Has(b, k, v) || Has(c, k, v)
    ensures Has(a + b + c, k, v)
  {
  }

  /** Looking a member of the body up gives what was put there. */
  lemma BodyShows(p: Platform, c: Context, inputs: Inputs, events: seq<Json>, exposures: seq<Json>, v: View,
                  full: bool, prev: Option<string>)
    ensures var m := BodyDict(p, c, inputs, events, exposures, v, full, prev);
            && "run_id" in m && m["run_id"] == Str(c.runId)
            && "provider_events" in m && m["provider_events"] == Arr(events)
            && "local_only_hashes" in m && m["local_only_hashes"] == Arr(LocalItems(p, inputs.localOnly))
            && "single_provider_exposure" in m && m["single_provider_exposure"] == Arr(exposures)
            && "prev_receipt_hash" in m && m["prev_receipt_hash"] == MaybeStr(prev)
            && "task_type" in m && m["task_type"] == TaskOf(inputs) && "policy_id" in m && m["policy_id"] == c.policyId
            && "no_single_provider_saw_full" in m && m["no_single_provider_saw_full"] == Bool(full)
            && "masking_level" in m && m["masking_level"] == Str("guided_curated_p0")
            && "provenance" in m && m["provenance"] == c.provenance
            && ShowsFigures(m, p, v)
  {
    var a := RunMembers(Str(c.runId), TaskOf(inputs), c.policyId, MaybeStr(prev), c.provenance);
    var b := ListMembers(Arr(events), Arr(LocalItems(p, inputs.localOnly)), Arr(exposures),
                         Arr(DomainItems(p, v.totals)));
    var d := FigureMembers(FloatOf(p, v.maxSeat), FloatOf(p, v.maxDomain), Bool(v.noDomainHasAll), Bool(full));
    hide RunMembers, ListMembers, FigureMembers, LocalItems, DomainItems, FloatOf;
    RunMembersAre(Str(c.runId), TaskOf(inputs), c.policyId, MaybeStr(prev), c.provenance);
    ListMembersAre(Arr(events), Arr(LocalItems(p, inputs.localOnly)), Arr(exposures), Arr(DomainItems(p, v.totals)));
    FigureMembersAre(FloatOf(p, v.maxSeat), FloatOf(p, v.maxDomain), Bool(v.noDomainHasAll), Bool(full));
    KeysApart();
    hide RUN_KEYS, LIST_KEYS, FIGURE_KEYS;
    forall k, x | Has(a, k, x) || Has(b, k, x) || Has(d, k, x) ensures Has(a + b + d, k, x) {
      JoinShows(a, b, d, k, x);
    }
  }

  lemma SealShows(p: Platform, c: Context, inputs: Inputs, events: seq<Json>, exposures: seq<Json>, v: View,
                  full: bool, prev: Option<string>, keyId: string, hash: string, sig: Dict)
    ensures var m := Sealed(BodyDict(p, c, inputs, events, exposures, v, full, prev), keyId, hash, sig);
            ShowsTop(m, c, hash, keyId, sig, events, LocalItems(p, inputs.localOnly), exposures, prev)
  {
    var b := BodyDict(p, c, inputs, events, exposures, v, full, prev);
    BodyShows(p, c, inputs, events, exposures, v, full, prev);
    SealAdds(b, keyId, hash, sig);
    SealKeeps(b, keyId, hash, sig, "run_id");
    SealKeeps(b, keyId, hash, sig, "provider_events");
    SealKeeps(b, keyId, hash, sig, "local_only_hashes");
    SealKeeps(b, keyId, hash, sig, "single_provider_exposure");
    SealKeeps(b, keyId, hash, sig, "prev_receipt_hash");
  }

  lemma SealShowsFigures(p: Platform, v: View, b: Dict, keyId: string, hash: string, sig: Dict)
    requires ShowsFigures(b, p, v)
    ensures ShowsFigures(Sealed(b, keyId, hash, sig), p, v)
  {
    SealKeeps(b, keyId, hash, sig, "trust_domain_exposure");
    SealKeeps(b, keyId, hash, sig, "max_single_seat_exposure");
    SealKeeps(b, keyId, hash, sig, "max_single_trust_domain_exposure");
    SealKeeps(b, keyId, hash, sig, "max_single_provider_exposure");
    SealKeeps(b, keyId, hash, sig, "no_single_trust_domain_received_all_fragments");
  }

  lemma SealHasRequired(b: Dict, keyId: string, hash: string, sig: Dict)
    requires "run_id" in b && "task_type" in b && "policy_id" in b && "provider_events" in b
    requires "local_only_hashes" in b && "single_provider_exposure" in b && "max_single_provider_exposure" in b
    requires "no_single_provider_saw_full" in b && "prev_receipt_hash" in b && "masking_level" in b && "provenance" in b
    ensures HasRequired(Sealed(b, keyId, hash, sig))
  {
    var m := Sealed(b, keyId, hash, sig);
    SealAdds(b, keyId, hash, sig);
    forall i | 0 <= i < |REQUIRED| ensures REQUIRED[i] in m {
      assert i == 0 || i == 1 || i == 2 || i == 3 || i == 4 || i == 5 || i == 6 || i == 7 || i == 8
             || i == 9 || i == 10 || i == 11 || i == 12 || i == 13;
    }
  }

  /** The verifier's reading of a list of members that show what the producer put there. */
  lemma ReadsTop(p: Platform, m: Dict, c: Context, hash: string, keyId: string, sig: Dict,
                 es: seq<SeatEvent>, localOnly: Locals, seats: seq<Seat>, v: View, prev: Option<string>)
    requires FloatLaw(p) && |v.shares| == |seats| && AllMicro(v.shares) && v == ViewOf(v.shares)
    requires ShowsTop(m, c, hash, keyId, sig, EventItems(es), LocalItems(p, localOnly),
                      ExposureItems(p, seats, v.shares), prev)
    requires ShowsFigures(m, p, v)
    ensures Read(m) == Some(Receipt(c.runId, hash, prev, ReadSignature(m), keyId, SeenEvents(es),
                                    SeenLocals(p, localOnly), SeenExposures(seats, v.shares),
                                    Some(SeenDomains(v.totals)), Some(v.maxSeat), Some(v.maxDomain), v.maxDomain,
                                    Some(v.noDomainHasAll)))
  {
    hide ReadAll, EventItems, LocalItems, ExposureItems, DomainItems, SeenEvents, SeenLocals, SeenExposures,
      SeenDomains, Accumulate, MaxValue, MaxOf, Round6, IsMicro, SomeDomainHasAll, ReadSignature;
    ReadsEvents(es);
    ReadsLocals(p, localOnly);
    ReadsExposures(p, seats, v.shares);
    ReadsDomainList(p, v.shares);
    RoundIsMicro(MaxOf(ShareRatios(v.shares)));
    RoundIsMicro(MaxValue(v.totals.ratio));
    ReadsFloat(p, v.maxSeat);
    ReadsFloat(p, v.maxDomain);
    ReadsLists(p, m, es, localOnly, seats, v);
    ReadsScalars(p, m, c, hash, keyId, prev, v);
  }

  lemma ReadsLists(p: Platform, m: Dict, es: seq<SeatEvent>, localOnly: Locals, seats: seq<Seat>, v: View)
    requires |v.shares| == |seats|
    requires "provider_events" in m && m["provider_events"] == Arr(EventItems(es))
    requires "local_only_hashes" in m && m["local_only_hashes"] == Arr(LocalItems(p, localOnly))
    requires "single_provider_exposure" in m && m["single_provider_exposure"] == Arr(ExposureItems(p, seats, v.shares))
    requires "trust_domain_exposure" in m && m["trust_domain_exposure"] == Arr(DomainItems(p, v.totals))
    requires ReadAll(ReadDomain, DomainItems(p, v.totals)) == Some(SeenDomains(v.totals))
    ensures List(m, "provider_events") == Some(EventItems(es))
    ensures List(m, "local_only_hashes") == Some(LocalItems(p, localOnly))
    ensures List(m, "single_provider_exposure") == Some(ExposureItems(p, seats, v.shares))
    ensures ReadDomains(m) == Some(Some(SeenDomains(v.totals)))
  {
  }

  lemma ReadsScalars(p: Platform, m: Dict, c: Context, hash: string, keyId: string, prev: Option<string>, v: View)
    requires "run_id" in m && m["run_id"] == Str(c.runId)
    requires "receipt_hash" in m && m["receipt_hash"] == Str(hash)
    requires "signing_key_id" in m && m["signing_key_id"] == Str(keyId)
    requires "prev_receipt_hash" in m && m["prev_receipt_hash"] == MaybeStr(prev)
    requires ShowsFigures(m, p, v)
    requires NumberOf(FloatOf(p, v.maxSeat)) == Some(v.maxSeat)
    requires NumberOf(FloatOf(p, v.maxDomain)) == Some(v.maxDomain)
    ensures PlainText(m, "run_id") == Some(c.runId)
    ensures PlainText(m, "receipt_hash") == Some(hash)
    ensures PlainText(m, "signing_key_id") == Some(keyId)
    ensures NullableText(m, "prev_receipt_hash") == Some(prev)
    ensures MaybeRatio(m, "max_single_seat_exposure") == Some(Some(v.maxSeat))
    ensures MaybeRatio(m, "max_single_trust_domain_exposure") == Some(Some(v.maxDomain))
    ensures Ratio(m, "max_single_provider_exposure") == Some(v.maxDomain)
    ensures MaybeBool(m, "no_single_trust_domain_received_all_fragments") == Some(Some(v.noDomainHasAll))
  {
  }

  // ---------- every check passes ----------

  lemma {:induction false} SeatRatiosOf(xs: seq<SeatExposure>)
    requires Unique(ExposureProviders(xs))
    ensures forall i :: 0 <= i < |xs| ==>
                xs[i].provider in SeatRatios(xs) && SeatRatios(xs)[xs[i].provider] == xs[i].ratio
    ensures forall k :: k in SeatRatios(xs) ==> exists i :: 0 <= i < |xs| && xs[i].provider == k
  {
    if xs != [] {
      var n := |xs| - 1;
      var init := xs[..n];
      assert Unique(ExposureProviders(init)) by {
        forall i, j | 0 <= i < j < n ensures ExposureProviders(init)[i] != ExposureProviders(init)[j] {
          assert ExposureProviders(xs)[i] != ExposureProviders(xs)[j];
        }
      }
      SeatRatiosOf(init);
      forall i | 0 <= i < n ensures xs[i].provider in SeatRatios(xs) && SeatRatios(xs)[xs[i].provider] == xs[i].ratio {
        assert ExposureProviders(xs)[i] != ExposureProviders(xs)[n];
        assert init[i] == xs[i];
      }
      forall k | k in SeatRatios(xs) ensures exists i :: 0 <= i < |xs| && xs[i].provider == k {
        if k in SeatRatios(init) {
          var i :| 0 <= i < |init| && init[i].provider == k;
          assert xs[i].provider == k;
        } else {
          assert xs[n].provider == k;
        }
      }
    }
  }

  lemma {:induction false} DeclaredSeatsOf(es: seq<SeatEvent>)
    ensures DeclaredSeats(SeenEvents(es)) == EventSeats(es)
  {
    Verify.DeclaredSeatsAre(SeenEvents(es));
  }

  lemma EventsShapeOk(p: Platform, inputs: Inputs, seats: seq<Seat>, replies: Replies)
    requires HashLaw(p) && SeatsFit(inputs, seats)
    ensures EventsShape(SeenEvents(Events(p, inputs, seats, replies))) == Valid
  {
    var es := Events(p, inputs, seats, replies);
    forall i | 0 <= i < |es| ensures EventShape(SeenEvent(es[i])) == Valid {
      EventShapeOk(p, es[i], inputs.payloads[seats[i].fid]);
    }
  }

  lemma EventShapeOk(p: Platform, e: SeatEvent, payload: string)
    requires HashLaw(p) && e.payloadHash == TextHash(p, payload)
    ensures EventShape(SeenEvent(e)) == Valid
  {
    DigestIsHex64(TextHash(p, payload));
  }

  /** What the verifier sees of a signed body. */
  function Seen(p: Platform, c: Context, localOnly: Locals, es: seq<SeatEvent>, seats: seq<Seat>, v: View,
                hash: string, keyId: string, sig: string, prev: Option<string>): Receipt
    requires |v.shares| == |seats|
  {
    Receipt(c.runId, hash, prev, Some(sig), keyId, SeenEvents(es), SeenLocals(p, localOnly),
            SeenExposures(seats, v.shares), Some(SeenDomains(v.totals)), Some(v.maxSeat), Some(v.maxDomain),
            v.maxDomain, Some(v.noDomainHasAll))
  }

  /** Identifiers the producer is given, in the form the verifier demands. */
  predicate WellNamed(c: Context, keyId: string, prev: Option<string>) {
    Ulid(c.runId) && KeyId(keyId) && (prev.Some? ==> Hex64(prev.value))
  }

  lemma ShapeOk(p: Platform, c: Context, inputs: Inputs, seats: seq<Seat>, replies: Replies, v: View,
                hash: string, keyId: string, sig: string, prev: Option<string>)
    requires HashLaw(p) && SeatsFit(inputs, seats) && WellNamed(c, keyId, prev) && HexDigest(hash)
    requires |v.shares| == |seats|
    ensures ShapeVerdict(Seen(p, c, inputs.localOnly, Events(p, inputs, seats, replies), seats, v, hash, keyId, sig,
                              prev))
            == Valid
  {
    var es := Events(p, inputs, seats, replies);
    DigestIsHex64(hash);
    EventsShapeOk(p, inputs, seats, replies);
    LocalsOk(p, inputs.localOnly);
    IdsDistinct(p, inputs, seats, replies);
    UniqueSeen(es, seats, v);
    UniqueDomains(v.totals);
  }

  lemma LocalsOk(p: Platform, localOnly: Locals)
    requires HashLaw(p)
    ensures forall i :: 0 <= i < |SeenLocals(p, localOnly)| ==> Hex64(SeenLocals(p, localOnly)[i])
  {
    forall i | 0 <= i < |SeenLocals(p, localOnly)| ensures Hex64(SeenLocals(p, localOnly)[i]) {
      DigestIsHex64(SeenLocals(p, localOnly)[i]);
    }
  }

  lemma UniqueSeen(es: seq<SeatEvent>, seats: seq<Seat>, v: View)
    requires |v.shares| == |seats| == |es|
    requires forall i :: 0 <= i < |es| ==> es[i].provider == seats[i].Provider()
    requires Unique(EventSeats(es)) && Unique(EventProviders(es))
    ensures Unique(Providers(SeenEvents(es))) && Unique(DeclaredSeats(SeenEvents(es)))
    ensures Unique(ExposureProviders(SeenExposures(seats, v.shares)))
  {
    DeclaredSeatsOf(es);
    forall i, j | 0 <= i < j < |es|
      ensures Providers(SeenEvents(es))[i] != Providers(SeenEvents(es))[j]
      ensures var ids := ExposureProviders(SeenExposures(seats, v.shares)); ids[i] != ids[j]
    {
      assert EventProviders(es)[i] != EventProviders(es)[j];
    }
  }

  lemma UniqueDomains(t: Totals)
    ensures Unique(DomainNames(SeenDomains(t)))
    ensures SetOf(DomainNames(SeenDomains(t))) == t.ratio.Keys
  {
    var ks := SortedKeys(ByCodePoint, t.ratio.Keys);
    var names := DomainNames(SeenDomains(t));
    assert names == ks;
    forall i, j | 0 <= i < j < |ks| ensures ks[i] != ks[j] {
      BeforeAsymmetric(ByCodePoint, ks[i], ks[j]);
    }
    forall k ensures k in SetOf(ks) <==> k in t.ratio.Keys {
      assert k in ks <==> k in t.ratio.Keys;
    }
  }

  lemma Accounts(p: Platform, inputs: Inputs, seats: seq<Seat>, es: seq<SeatEvent>, shares: seq<Share>,
                 ratios: map<string, real>)
    requires |es| == |seats| == |shares|
    requires forall i :: 0 <= i < |es| ==> es[i].seat == shares[i].seat && es[i].domain == shares[i].domain
    requires forall i :: 0 <= i < |es| ==> es[i].provider in ratios && ratios[es[i].provider] == shares[i].ratio
    ensures AllAccountable(SeenEvents(es), ratios) && EventShares(SeenEvents(es), ratios) == shares
  {
    forall i | 0 <= i < |es| ensures Accountable(SeenEvents(es)[i], ratios) {
      assert SeenEvents(es)[i] == SeenEvent(es[i]);
    }
  }

  lemma RatiosRecovered(seats: seq<Seat>, shares: seq<Share>)
    requires |seats| == |shares| && forall i, j :: 0 <= i < j < |seats| ==> seats[i].fid != seats[j].fid
    ensures var xs := SeenExposures(seats, shares);
            && (forall i :: 0 <= i < |xs| ==>
                  seats[i].Provider() in SeatRatios(xs) && SeatRatios(xs)[seats[i].Provider()] == shares[i].ratio)
            && (seats != [] ==> SeatRatios(xs) != map[] && MaxValue(SeatRatios(xs)) == MaxOf(ShareRatios(shares)))
  {
    var xs := SeenExposures(seats, shares);
    ProvidersDistinct(seats);
    SeatRatiosOf(xs);
    forall i | 0 <= i < |xs|
      ensures seats[i].Provider() in SeatRatios(xs) && SeatRatios(xs)[seats[i].Provider()] == shares[i].ratio
    {
      assert xs[i].provider in SeatRatios(xs) && SeatRatios(xs)[xs[i].provider] == xs[i].ratio;
    }
    if seats != [] {
      SameMaximum(xs, ShareRatios(shares), SeatRatios(xs));
    }
  }

  /** The ratios and shares that the verifier recomputes are the producer's own. */
  lemma SharesRecovered(p: Platform, inputs: Inputs, seats: seq<Seat>, replies: Replies)
    requires SeatsFit(inputs, seats)
    ensures var shares := SeatShares(p, inputs, seats);
            var events := SeenEvents(Events(p, inputs, seats, replies));
            var ratios := SeatRatios(SeenExposures(seats, shares));
            AllAccountable(events, ratios) && EventShares(events, ratios) == shares &&
            (seats != [] ==> ratios != map[] && MaxValue(ratios) == MaxOf(ShareRatios(shares)))
  {
    var shares := SeatShares(p, inputs, seats);
    var es := Events(p, inputs, seats, replies);
    RatiosRecovered(seats, shares);
    forall i | 0 <= i < |es|
      ensures es[i].provider == seats[i].Provider() && es[i].seat == shares[i].seat && es[i].domain == shares[i].domain
    {
      assert es[i] == EventOf(p, inputs, seats[i], ReplyOf(replies, seats[i].fid));
    }
    Accounts(p, inputs, seats, es, shares, SeatRatios(SeenExposures(seats, shares)));
  }

  lemma SameMaximum(xs: seq<SeatExposure>, rs: seq<real>, ratios: map<string, real>)
    requires |xs| == |rs| > 0 && forall i :: 0 <= i < |xs| ==> xs[i].ratio == rs[i]
    requires forall i :: 0 <= i < |xs| ==> xs[i].provider in ratios && ratios[xs[i].provider] == xs[i].ratio
    requires forall k :: k in ratios ==> exists i :: 0 <= i < |xs| && xs[i].provider == k
    ensures ratios != map[] && MaxValue(ratios) == MaxOf(rs)
  {
    assert xs[0].provider in ratios;
    var m, x := MaxValue(ratios), MaxOf(rs);
    assert m <= x by {
      var k :| k in ratios && ratios[k] == m;
      var i :| 0 <= i < |xs| && xs[i].provider == k;
      assert rs[i] <= x;
    }
    assert x <= m by {
      var j :| 0 <= j < |rs| && rs[j] == x;
      assert ratios[xs[j].provider] <= m;
    }
  }

  lemma HostsOk(p: Platform, inputs: Inputs, seats: seq<Seat>, replies: Replies)
    requires SeatsFit(inputs, seats)
    ensures var events := SeenEvents(Events(p, inputs, seats, replies));
            forall i :: 0 <= i < |events| ==> HostAgrees(p, events[i])
  {
    var es := Events(p, inputs, seats, replies);
    forall i | 0 <= i < |es| ensures HostAgrees(p, SeenEvents(es)[i]) {
      assert es[i].domain == p.trustDomain(es[i].host);
    }
  }

  lemma VerdictOfParts(p: Platform, r: Receipt, shares: seq<Share>)
    requires forall i :: 0 <= i < |r.events| ==> HostAgrees(p, r.events[i])
    requires r.domains.Some? && AllAccountable(r.events, SeatRatios(r.exposures))
    requires EventShares(r.events, SeatRatios(r.exposures)) == shares
    ensures DomainVerdict(p, r) == TotalsVerdict(r, r.domains.value, shares)
  {
  }

  lemma DomainsOk(p: Platform, c: Context, inputs: Inputs, seats: seq<Seat>, replies: Replies,
                  hash: string, keyId: string, sig: string, prev: Option<string>)
    requires SeatsFit(inputs, seats) && seats != []
    ensures DomainVerdict(p, Seen(p, c, inputs.localOnly, Events(p, inputs, seats, replies), seats,
                                  ViewOf(SeatShares(p, inputs, seats)), hash, keyId, sig, prev)) == Valid
  {
    var shares := SeatShares(p, inputs, seats);
    var es := Events(p, inputs, seats, replies);
    var r := Seen(p, c, inputs.localOnly, es, seats, ViewOf(shares), hash, keyId, sig, prev);
    SharesRecovered(p, inputs, seats, replies);
    HostsOk(p, inputs, seats, replies);
    VerdictOfParts(p, r, shares);
    TotalsOk(r, shares);
  }

  lemma TotalsOk(r: Receipt, shares: seq<Share>)
    requires r.domains == Some(SeenDomains(Accumulate(shares)))
    requires var v := ViewOf(shares);
             r.maxSeat == Some(v.maxSeat) && r.maxDomain == Some(v.maxDomain) && r.maxProvider == v.maxDomain &&
             r.noDomainHasAll == Some(v.noDomainHasAll)
    requires SeatRatios(r.exposures) != map[] && MaxValue(SeatRatios(r.exposures)) == MaxOf(ShareRatios(shares))
    ensures TotalsVerdict(r, r.domains.value, shares) == Valid
  {
    hide Accumulate, MaxValue, MaxOf, SomeDomainHasAll, SeatRatios, AllSeats, Round6, SortedKeys, SetOf;
    var t := Accumulate(shares);
    var ds := SeenDomains(t);
    UniqueDomains(t);
    forall i | 0 <= i < |ds| ensures EntryRatioAgrees(ds[i], t) && EntrySeatsAgree(ds[i], t) {
      assert ds[i] == SeenDomain(ds[i].domain, t);
    }
  }

  lemma RatiosAreMicro(p: Platform, inputs: Inputs, seats: seq<Seat>)
    requires SeatsFit(inputs, seats)
    ensures AllMicro(SeatShares(p, inputs, seats))
  {
    var shares := SeatShares(p, inputs, seats);
    forall i | 0 <= i < |shares| ensures IsMicro(shares[i].ratio) {
      var chars, total := |inputs.payloads[seats[i].fid]|, |inputs.original|;
      if total == 0 {
        assert 0.0 * MILLION == 0.0;
      } else {
        RoundIsMicro(chars as real / total as real);
      }
    }
  }

  /** The signature over the recorded hash verifies under the matching public key. */
  lemma SignatureOk(p: Platform, key: PrivateKey, r: Receipt)
    requires SignatureLaw(p) && r.signature == Some(p.base64(p.sign(key, Utf8.Encode(r.hash))))
    ensures SignatureVerdict(p, Some(p.publicOf(key)), r) == Valid
  {
  }

  lemma SealsAsSigned(p: Platform, key: PrivateKey, keyId: string, body: Dict)
    ensures var hash := ReceiptHash(p, Unhashed(body, keyId));
            var m := Signed(p, key, keyId, body);
            m == Sealed(body, keyId, hash, SignatureDict(p, key, hash)) && ReceiptHash(p, m) == hash
  {
    SignedBody(p, key, keyId, body);
  }

  lemma ReadsSignature(p: Platform, key: PrivateKey, m: Dict, hash: string)
    requires SignatureLaw(p) && "signature" in m && m["signature"] == Obj(SignatureDict(p, key, hash))
    ensures ReadSignature(m) == Some(p.base64(p.sign(key, Utf8.Encode(hash))))
  {
    assert p.base64(p.sign(key, Utf8.Encode(hash))) != "";
  }

  /** Reading a signed body gives what the producer meant. */
  lemma SignedReads(p: Platform, key: PrivateKey, keyId: string, c: Context, inputs: Inputs, seats: seq<Seat>,
                    replies: Replies, prev: Option<string>)
    requires Laws(p) && SeatsFit(inputs, seats)
    ensures var body := Body(p, c, inputs, seats, replies, prev);
            var m := Signed(p, key, keyId, body);
            var hash := ReceiptHash(p, m);
            HasRequired(m) && HexDigest(hash) &&
            Read(m) == Some(Seen(p, c, inputs.localOnly, Events(p, inputs, seats, replies), seats,
                                 ViewOf(SeatShares(p, inputs, seats)), hash, keyId,
                                 p.base64(p.sign(key, Utf8.Encode(hash))), prev))
  {
    var shares := SeatShares(p, inputs, seats);
    var v := ViewOf(shares);
    var es := Events(p, inputs, seats, replies);
    var body := Body(p, c, inputs, seats, replies, prev);
    var m := Signed(p, key, keyId, body);
    var hash := ReceiptHash(p, m);
    var sig := SignatureDict(p, key, hash);
    var full := !SawFull(inputs.original, inputs.payloads);
    SealsAsSigned(p, key, keyId, body);
    RatiosAreMicro(p, inputs, seats);
    BodyShows(p, c, inputs, EventItems(es), ExposureItems(p, seats, shares), v, full, prev);
    SealShows(p, c, inputs, EventItems(es), ExposureItems(p, seats, shares), v, full, prev, keyId, hash, sig);
    SealShowsFigures(p, v, body, keyId, hash, sig);
    SealHasRequired(body, keyId, hash, sig);
    ReadsSignature(p, key, m, hash);
    ReadsTop(p, m, c, hash, keyId, sig, es, inputs.localOnly, seats, v, prev);
  }

  /**
    For all buffers, seats, hosts, replies and transport failures, the signed body passes every
    check of the verifier under the matching key.
   */
  lemma SignedAccepted(p: Platform, key: PrivateKey, keyId: string, c: Context, inputs: Inputs, seats: seq<Seat>,
                       replies: Replies, prev: Option<string>)
    requires Laws(p) && SeatsFit(inputs, seats) && seats != [] && WellNamed(c, keyId, prev)
    ensures Accepted(p, Some(p.publicOf(key)), Signed(p, key, keyId, Body(p, c, inputs, seats, replies, prev)))
  {
    var m := Signed(p, key, keyId, Body(p, c, inputs, seats, replies, prev));
    var hash := ReceiptHash(p, m);
    var sig := p.base64(p.sign(key, Utf8.Encode(hash)));
    SignedReads(p, key, keyId, c, inputs, seats, replies, prev);
    ShapeOk(p, c, inputs, seats, replies, ViewOf(SeatShares(p, inputs, seats)), hash, keyId, sig, prev);
    DomainsOk(p, c, inputs, seats, replies, hash, keyId, sig, prev);
    SignatureOk(p, key, Read(m).value);
    Verify.AcceptedMeans(p, Some(p.publicOf(key)), m);
  }
}
