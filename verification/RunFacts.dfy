/** The run as a loop, and what holds of every run. */
module RunFacts {
  import opened Wrappers
  import opened Text
  import opened JsonText
  import opened Json
  import opened Platform
  import opened Receipts
  import opened Replace
  import opened Producer
  import opened LiveRun
  import Agreement
  import Chain
  import Seats
  import Ulids
  import Utf8

  // ---------- the run, step by step ----------

  /** The send loop: each seat's buffer goes out once; only transport errors are recorded and passed over. */
  method Transmit(reply: nat -> Reply, inputs: Inputs, seats: seq<Seat>)
    returns (sent: seq<Transmission>, responses: Replies, failures: seq<string>, left: bool)
    requires SeatsFit(inputs, seats)
    ensures sent == Trace(inputs, seats, Calls(reply, |seats|))
    ensures left == Interrupted(reply, |seats|)
    ensures !left ==> responses == Responses(reply, seats, |seats|) && failures == Failures(reply, seats, |seats|)
  {
    hide Trace, TransmissionOf, Calls, Responses, Failures;
    sent, responses, failures, left := [], map[], [], false;
    NothingSent(reply, inputs, seats);
    for i := 0 to |seats|
      invariant sent == Trace(inputs, seats, i) && Calls(reply, i) == i
      invariant forall j :: 0 <= j < i ==> !reply(j).OtherException?
      invariant responses == Responses(reply, seats, i) && failures == Failures(reply, seats, i)
    {
      var s := seats[i];
      TraceNext(inputs, seats, i);
      ReplyNext(reply, seats, i);
      sent := sent + [TransmissionOf(inputs, s)];
      if reply(i).OtherException? {
        CallsStop(reply, i + 1, |seats|);
        return sent, responses, failures, true;
      }
      if reply(i).Answered? {
        responses := responses[s.fid := Some(reply(i).answer)];
      } else {
        responses := responses[s.fid := None];
        failures := failures + [s.fid];
      }
    }
  }

  lemma NothingSent(reply: nat -> Reply, inputs: Inputs, seats: seq<Seat>)
    requires SeatsFit(inputs, seats)
    ensures Trace(inputs, seats, 0) == [] && Calls(reply, 0) == 0
    ensures Responses(reply, seats, 0) == map[] && Failures(reply, seats, 0) == []
  {
  }

  lemma ReplyNext(reply: nat -> Reply, seats: seq<Seat>, i: nat)
    requires i < |seats| && Calls(reply, i) == i && forall j :: 0 <= j < i ==> !reply(j).OtherException?
    ensures Calls(reply, i + 1) == i + 1
    ensures Responses(reply, seats, i + 1)
            == Responses(reply, seats, i)[seats[i].fid := if reply(i).Answered? then Some(reply(i).answer) else None]
    ensures Failures(reply, seats, i + 1)
            == Failures(reply, seats, i) + if reply(i).TransportFailed? then [seats[i].fid] else []
  {
  }

  lemma {:induction false} CallsStop(reply: nat -> Reply, k: nat, n: nat)
    requires 0 < k <= n && Calls(reply, k) == k && reply(k - 1).OtherException?
    ensures Calls(reply, n) == k
  {
    if k < n {
      CallsStop(reply, k, n - 1);
    }
  }

  /** `run`, from seat resolution on. */
  method ResolveAndSend(m: Machine, c: Command, fs: seq<Fragment>, inputs: Inputs, prev: Option<string>)
    returns (r: Run)
    requires Unique(Ids(fs)) && forall f :: f in inputs.payloads <==> f in Ids(fs)
    requires LeakFree(m.p, inputs) && ChainGate(m, c.chain, |fs| + 4) == Pass(prev)
    ensures r == Gates(m, c, fs, inputs)
  {
    var resolved := Seats.ResolveSeats(m.config, Ids(fs), c.specs);
    if resolved.Failed? {
      return Run(SeatsRefused(resolved.error), []);
    }
    var seats := resolved.seats;
    ResolvedFit(m.config, fs, c.specs, inputs);
    if UnderReports(inputs.original, inputs.payloads) {
      return Run(AccountingRefused, []);
    }
    if !c.consent {
      return Run(NotConsented, []);
    }
    if !m.outDir {
      return Run(NoOutput, []);
    }
    r := SendThenSeal(m, inputs, seats, prev);
  }

  method SendThenSeal(m: Machine, inputs: Inputs, seats: seq<Seat>, prev: Option<string>) returns (r: Run)
    requires SeatsFit(inputs, seats) && !UnderReports(inputs.original, inputs.payloads)
    ensures r == SendAndSeal(m, inputs, seats, prev)
  {
    hide Trace, Calls, Responses, Failures, Signed, Body, RingAccepts, Sealable, Interrupted;
    var sent, responses, failures, left := Transmit(m.reply, inputs, seats);
    if left {
      return Run(Left, sent);
    }
    var body := BuildBody(m.p, ContextOf(m), inputs, seats, responses, prev);
    if body.Unwritable? || !m.sealing {
      return Run(Left, sent);
    }
    var receipt := SignReceipt(m.p, m.key, LOCAL_KEY_ID, body.body);
    if !RingAccepts(m.p, m.ring, receipt) {
      return Run(Unverified(receipt), sent);
    }
    if !m.combined {
      return Run(Uncombined(receipt), sent);
    }
    r := Run(Finished(receipt, failures), sent);
  }

  /** `run`, from the leak gate on. */
  method RunGates(m: Machine, c: Command, fs: seq<Fragment>, inputs: Inputs) returns (r: Run)
    requires Unique(Ids(fs)) && forall f :: f in inputs.payloads <==> f in Ids(fs)
    ensures r == Gates(m, c, fs, inputs)
  {
    var findings := LeakFindings(m.p, inputs);
    if findings != [] {
      return Run(LeakRefused, []);
    }
    var gate := ChainGate(m, c.chain, |fs| + 4);
    if gate.Refuse? {
      return Run(ChainRefused, []);
    }
    r := ResolveAndSend(m, c, fs, inputs, gate.prev);
  }

  /** `run` */
  method RunLive(m: Machine, c: Command) returns (r: Run)
    ensures r == Live(m, c)
  {
    var declared := Declared(m, c);
    if declared.None? {
      return Run(BadExample, []);
    }
    var fragments := LoadFragments(m.exists_, declared.value);
    if fragments.None? {
      return Run(BadExample, []);
    }
    FragmentIdsGood(m.exists_, Declared(m, c).value);
    var loaded := LoadRunInputs(m, c, fragments.value);
    if loaded.None? {
      return Run(Unreadable, []);
    }
    r := RunGates(m, c, fragments.value, loaded.value);
  }

  // ---------- gate safety ----------

  /** What the gates settle: fragments, buffers, seats, and the hash to chain onto. */
  datatype Plan = Plan(fs: seq<Fragment>, inputs: Inputs, seats: seq<Seat>, prev: Option<string>)

  /** Everything that must have happened before a byte leaves. */
  predicate Settled(m: Machine, c: Command, plan: Plan) {
    && FragmentsOf(m, c) == Some(plan.fs) && 2 <= |plan.fs| <= 5 && Unique(Ids(plan.fs))
    && LoadInputs(m, c, plan.fs) == Some(plan.inputs)
    && LeakFree(m.p, plan.inputs)
    && ChainGate(m, c.chain, |plan.fs| + 4) == Pass(plan.prev)
    && Seats.Resolve(m.config, Ids(plan.fs), c.specs) == Seats.Seated(plan.seats)
    && !UnderReports(plan.inputs.original, plan.inputs.payloads)
    && c.consent && m.outDir
    && SeatsFit(plan.inputs, plan.seats)
    && |plan.seats| == |plan.fs| && forall i :: 0 <= i < |plan.fs| ==> plan.seats[i].fid == plan.fs[i].id
  }

  /** The run got to the point of sending. */
  predicate Sends(o: Outcome) {
    o.Left? || o.Unverified? || o.Uncombined? || o.Finished?
  }

  lemma LoadedPayloads(m: Machine, c: Command, fs: seq<Fragment>)
    requires LoadInputs(m, c, fs).Some?
    ensures var inputs := LoadInputs(m, c, fs).value;
            && Payloads(TextReader(m.disk), fs, 2) == Some(inputs.payloads)
            && (forall f :: f in inputs.payloads <==> f in Ids(fs))
  {
  }

  /** The gates behind the loading. */
  predicate LaterGatesPassed(m: Machine, c: Command, fs: seq<Fragment>, inputs: Inputs)
    requires Unique(Ids(fs))
  {
    LeakFree(m.p, inputs) && ChainGate(m, c.chain, |fs| + 4).Pass? &&
    Seats.Resolve(m.config, Ids(fs), c.specs).Seated? &&
    !UnderReports(inputs.original, inputs.payloads) && c.consent && m.outDir
  }

  lemma SendingOutcome(m: Machine, inputs: Inputs, seats: seq<Seat>, prev: Option<string>)
    requires SeatsFit(inputs, seats)
    ensures Sends(SendAndSeal(m, inputs, seats, prev).outcome)
  {
    hide ReceiptOf, RingAccepts, Interrupted, Trace, Failures;
  }

  lemma LaterGatesInOrder(m: Machine, c: Command, fs: seq<Fragment>, inputs: Inputs)
    requires Unique(Ids(fs)) && forall f :: f in inputs.payloads <==> f in Ids(fs)
    ensures var r := Gates(m, c, fs, inputs);
            && (Sends(r.outcome) <==> LaterGatesPassed(m, c, fs, inputs))
            && (!LaterGatesPassed(m, c, fs, inputs) ==> r.sent == [])
    ensures LaterGatesPassed(m, c, fs, inputs) ==>
              var seats := Seats.Resolve(m.config, Ids(fs), c.specs).seats;
              SeatsFit(inputs, seats) && |seats| == |fs| && (forall i :: 0 <= i < |fs| ==> seats[i].fid == fs[i].id) &&
              Gates(m, c, fs, inputs) == SendAndSeal(m, inputs, seats, ChainGate(m, c.chain, |fs| + 4).prev)
  {
    hide SendAndSeal, ChainGate, LeakFree, Seats.Resolve, UnderReports;
    if Seats.Resolve(m.config, Ids(fs), c.specs).Seated? {
      ResolvedFit(m.config, fs, c.specs, inputs);
      Seats.ResolvedDistinct(m.config, Ids(fs), c.specs);
      if ChainGate(m, c.chain, |fs| + 4).Pass? {
        SendingOutcome(m, inputs, Seats.Resolve(m.config, Ids(fs), c.specs).seats,
                       ChainGate(m, c.chain, |fs| + 4).prev);
      }
    }
  }

  lemma LiveMeans(m: Machine, c: Command)
    requires FragmentsOf(m, c).Some?
    ensures var fs := FragmentsOf(m, c).value;
            Unique(Ids(fs)) && 2 <= |fs| <= 5 &&
            (LoadInputs(m, c, fs).Some? ==>
               (forall f :: f in LoadInputs(m, c, fs).value.payloads <==> f in Ids(fs)) &&
               Live(m, c) == Gates(m, c, fs, LoadInputs(m, c, fs).value)) &&
            (LoadInputs(m, c, fs).None? ==> Live(m, c) == Stop(Unreadable))
  {
    var fs := FragmentsOf(m, c).value;
    FragmentIdsGood(m.exists_, Declared(m, c).value);
    if LoadInputs(m, c, fs).Some? {
      LoadedPayloads(m, c, fs);
    }
  }

  /** Before the later gates a run can only stop. */
  lemma StopsEarly(m: Machine, c: Command)
    requires FragmentsOf(m, c).None? ||
             LoadInputs(m, c, FragmentsOf(m, c).value).None?
    ensures Live(m, c).sent == [] && !Sends(Live(m, c).outcome)
  {
  }

  /** A run that gets as far as sending has settled everything, and what it does then is sending and sealing. */
  lemma PlanOf(m: Machine, c: Command) returns (plan: Plan)
    requires Sends(Live(m, c).outcome) || Live(m, c).sent != []
    ensures Settled(m, c, plan) && Live(m, c) == SendAndSeal(m, plan.inputs, plan.seats, plan.prev)
  {
    hide Live, Gates, LoadInputs, ChainGate, SendAndSeal, LeakFree, UnderReports, Seats.Resolve, Fragments;
    if FragmentsOf(m, c).None? ||
       LoadInputs(m, c, FragmentsOf(m, c).value).None? {
      StopsEarly(m, c);
      assert false;
    }
    LiveMeans(m, c);
    var fs := FragmentsOf(m, c).value;
    var inputs := LoadInputs(m, c, fs).value;
    LaterGatesInOrder(m, c, fs, inputs);
    plan := Plan(fs, inputs, Seats.Resolve(m.config, Ids(fs), c.specs).seats, ChainGate(m, c.chain, |fs| + 4).prev);
  }

  /** Conversely, a settled run sends. */
  lemma SettledSends(m: Machine, c: Command, plan: Plan)
    requires Settled(m, c, plan)
    ensures Live(m, c) == SendAndSeal(m, plan.inputs, plan.seats, plan.prev)
  {
    hide LoadInputs, SendAndSeal, Gates, Live, ChainGate, Seats.Resolve;
    LiveMeans(m, c);
    LaterGatesInOrder(m, c, plan.fs, plan.inputs);
  }

  lemma SendingSends(m: Machine, inputs: Inputs, seats: seq<Seat>, prev: Option<string>)
    requires SeatsFit(inputs, seats) && seats != []
    ensures var r := SendAndSeal(m, inputs, seats, prev); Sends(r.outcome) && r.sent != []
  {
    hide SendAndSeal;
    CallsPositive(m.reply, |seats|);
    SentIsTrace(m, inputs, seats, prev);
    SendingOutcome(m, inputs, seats, prev);
  }

  lemma {:induction false} CallsPositive(reply: nat -> Reply, n: nat)
    requires n > 0
    ensures Calls(reply, n) > 0
  {
    if n > 1 {
      CallsPositive(reply, n - 1);
    }
  }

  /** No local-only value of four characters or more is in the prompt, after lower-casing and stripping. */
  predicate PromptClean(p: Platform, localOnly: Locals, prompt: string) {
    forall k :: k in localOnly ==> !Leaks(p, localOnly[k], prompt)
  }

  predicate AllPromptsClean(p: Platform, localOnly: Locals, sent: seq<Transmission>) {
    forall i :: 0 <= i < |sent| ==> PromptClean(p, localOnly, sent[i].prompt)
  }

  lemma TraceClean(p: Platform, inputs: Inputs, seats: seq<Seat>, n: nat)
    requires SeatsFit(inputs, seats) && n <= |seats| && LeakFree(p, inputs)
    ensures AllPromptsClean(p, inputs.localOnly, Trace(inputs, seats, n))
  {
    var sent := Trace(inputs, seats, n);
    forall i | 0 <= i < n ensures PromptClean(p, inputs.localOnly, sent[i].prompt) {
      assert sent[i] == TransmissionOf(inputs, seats[i]);
    }
  }

  /**
    Gate safety over whole runs: something was sent exactly when every gate was passed, and a
    run that did not get to the point of sending sent nothing.
   */
  lemma GateSafety(m: Machine, c: Command)
    ensures Live(m, c).sent != [] <==> exists plan :: Settled(m, c, plan)
    ensures Live(m, c).sent != [] <==> Sends(Live(m, c).outcome)
  {
    if Live(m, c).sent != [] || Sends(Live(m, c).outcome) {
      var plan := PlanOf(m, c);
      SendingSends(m, plan.inputs, plan.seats, plan.prev);
    } else if plan :| Settled(m, c, plan) {
      SettledSends(m, c, plan);
      SendingSends(m, plan.inputs, plan.seats, plan.prev);
    }
  }

  /** And no prompt that was sent contains a local-only value. */
  lemma SentPromptsClean(m: Machine, c: Command, plan: Plan)
    requires Settled(m, c, plan)
    ensures AllPromptsClean(m.p, plan.inputs.localOnly, Live(m, c).sent)
  {
    SettledSends(m, c, plan);
    SentIsTrace(m, plan.inputs, plan.seats, plan.prev);
    TraceClean(m.p, plan.inputs, plan.seats, Calls(m.reply, |plan.seats|));
  }

  lemma SentIsTrace(m: Machine, inputs: Inputs, seats: seq<Seat>, prev: Option<string>)
    requires SeatsFit(inputs, seats)
    ensures SendAndSeal(m, inputs, seats, prev).sent == Trace(inputs, seats, Calls(m.reply, |seats|))
  {
    hide ReceiptOf, RingAccepts;
  }

  // ---------- single-read fidelity ----------

  /** The i-th event of a receipt is about the i-th transmission: its bytes, their number, and where they went. */
  predicate EventRecords(p: Platform, event: Json, t: Transmission, r: Reply) {
    event.Obj? &&
    var d := event.m;
    && "payload_sha256" in d && d["payload_sha256"] == Str(p.sha256(Utf8.Encode(t.prompt)))
    && "payload_chars" in d && d["payload_chars"] == Int(|t.prompt|)
    && "seat_id" in d && d["seat_id"] == Str(t.fid)
    && "endpoint_host" in d && d["endpoint_host"] == Str(t.host)
    && "model" in d && d["model"] == Str(t.model)
    && "event_type" in d
    && d["event_type"] == Str(if r.Answered? && r.answer.text != "" then "live_response" else "no_response")
    && ("completion" in d <==> r.Answered?)
  }

  lemma BareEventMembers(e: SeatEvent)
    ensures var d := BareEvent(e);
            && "payload_sha256" in d && d["payload_sha256"] == Str(e.payloadHash)
            && "payload_chars" in d && d["payload_chars"] == Int(e.payloadChars)
            && "seat_id" in d && d["seat_id"] == Str(e.seat)
            && "endpoint_host" in d && d["endpoint_host"] == Str(e.host)
            && "model" in d && d["model"] == Str(e.model)
            && "event_type" in d
            && d["event_type"] == Str(if e.responseHash.Some? then "live_response" else "no_response")
            && "completion" !in d
  {
  }

  lemma EventMembers(e: SeatEvent, k: string)
    requires k in BareEvent(e) && k != "completion" && k != "response_truncated" && k != "usage"
    ensures k in EventDict(e) && EventDict(e)[k] == BareEvent(e)[k]
  {
  }

  lemma EventRecordsSent(p: Platform, inputs: Inputs, s: Seat, r: Reply)
    requires s.fid in inputs.payloads && Normalize(inputs.payloads[s.fid]) == inputs.payloads[s.fid]
    requires !r.OtherException?
    ensures var e := EventOf(p, inputs, s, if r.Answered? then Some(r.answer) else None);
            EventRecords(p, Obj(EventDict(e)), TransmissionOf(inputs, s), r)
  {
    var e := EventOf(p, inputs, s, if r.Answered? then Some(r.answer) else None);
    BareEventMembers(e);
    EventMembers(e, "payload_sha256");
    EventMembers(e, "payload_chars");
    EventMembers(e, "seat_id");
    EventMembers(e, "endpoint_host");
    EventMembers(e, "model");
    EventMembers(e, "event_type");
    Agreement.EventDictShows(e);
  }

  lemma {:induction false} ResponsesAt(reply: nat -> Reply, seats: seq<Seat>, n: nat, i: nat)
    requires i < n <= |seats| && !Interrupted(reply, n)
    requires forall a, b :: 0 <= a < b < |seats| ==> seats[a].fid != seats[b].fid
    ensures ReplyOf(Responses(reply, seats, n), seats[i].fid)
            == if reply(i).Answered? then Some(reply(i).answer) else None
  {
    if i < n - 1 {
      ResponsesAt(reply, seats, n - 1, i);
    }
  }

  lemma ReadIsNormal(disk: Disk, tick: nat, path: string)
    requires ReadFile(disk, tick, path).Some?
    ensures var text := ReadFile(disk, tick, path).value;
            disk(tick, path).Some? && text == Normalize(disk(tick, path).value) && Normalize(text) == text
  {
    NormalizeIdempotent(disk(tick, path).value);
  }

  /** The receipt has one event per transmission, in order, about exactly what was sent. */
  predicate ReceiptRecords(p: Platform, receipt: Dict, sent: seq<Transmission>, reply: nat -> Reply) {
    && "provider_events" in receipt && receipt["provider_events"].Arr?
    && |receipt["provider_events"].items| == |sent|
    && forall i :: 0 <= i < |sent| ==> EventRecords(p, receipt["provider_events"].items[i], sent[i], reply(i))
  }

  lemma SealedEvents(m: Machine, inputs: Inputs, seats: seq<Seat>, prev: Option<string>)
    requires SeatsFit(inputs, seats)
    ensures var receipt := ReceiptOf(m, inputs, seats, prev);
            var es := Events(m.p, inputs, seats, Responses(m.reply, seats, |seats|));
            "provider_events" in receipt && receipt["provider_events"] == Arr(EventItems(es))
  {
    var replies := Responses(m.reply, seats, |seats|);
    var shares := SeatShares(m.p, inputs, seats);
    var es := Events(m.p, inputs, seats, replies);
    var body := Body(m.p, ContextOf(m), inputs, seats, replies, prev);
    Agreement.BodyShows(m.p, ContextOf(m), inputs, EventItems(es), ExposureItems(m.p, seats, shares), ViewOf(shares),
                        !SawFull(inputs.original, inputs.payloads), prev);
    Agreement.SealsAsSigned(m.p, m.key, LOCAL_KEY_ID, body);
    var hash := ReceiptHash(m.p, Unhashed(body, LOCAL_KEY_ID));
    Agreement.SealKeeps(body, LOCAL_KEY_ID, hash, SignatureDict(m.p, m.key, hash), "provider_events");
  }

  lemma SealedRecords(m: Machine, inputs: Inputs, seats: seq<Seat>, prev: Option<string>)
    requires SeatsFit(inputs, seats) && !Interrupted(m.reply, |seats|)
    requires forall i :: 0 <= i < |seats| ==>
               Normalize(inputs.payloads[seats[i].fid]) == inputs.payloads[seats[i].fid]
    ensures ReceiptRecords(m.p, ReceiptOf(m, inputs, seats, prev), Trace(inputs, seats, |seats|), m.reply)
  {
    SealedEvents(m, inputs, seats, prev);
    forall i | 0 <= i < |seats|
      ensures EventRecords(m.p, ReceiptOf(m, inputs, seats, prev)["provider_events"].items[i],
                           Trace(inputs, seats, |seats|)[i], m.reply(i))
    {
      ResponsesAt(m.reply, seats, |seats|, i);
      EventRecordsSent(m.p, inputs, seats[i], m.reply(i));
    }
  }

  /**
    Single-read fidelity: whatever happens to the files, each prompt sent is the normalised text
    of the one read of that fragment's payload, in fragment order and at most once per seat.
   */
  lemma SentIsWhatWasRead(m: Machine, c: Command, plan: Plan)
    requires Settled(m, c, plan)
    ensures var sent := Live(m, c).sent;
            |sent| <= |plan.fs| &&
            forall i :: 0 <= i < |sent| ==>
              sent[i].fid == plan.fs[i].id && Some(sent[i].prompt) == ReadFile(m.disk, 2 + i, plan.fs[i].path)
  {
    hide SendAndSeal, LoadInputs, LoadRest, ChainGate, LeakFree, ReadFile, Gates, Live, Seats.Resolve, Fragments;
    SettledSends(m, c, plan);
    SentIsTrace(m, plan.inputs, plan.seats, plan.prev);
    PlanBuffers(m, c, plan);
    var sent := Live(m, c).sent;
    forall i | 0 <= i < |sent|
      ensures sent[i].fid == plan.fs[i].id && Some(sent[i].prompt) == ReadFile(m.disk, 2 + i, plan.fs[i].path)
    {
      assert sent[i] == TransmissionOf(plan.inputs, plan.seats[i]);
    }
  }

  lemma PlanBuffers(m: Machine, c: Command, plan: Plan)
    requires Settled(m, c, plan)
    ensures forall i :: 0 <= i < |plan.fs| ==>
              plan.fs[i].id in plan.inputs.payloads &&
              Some(plan.inputs.payloads[plan.fs[i].id]) == ReadFile(m.disk, 2 + i, plan.fs[i].path)
  {
    hide ReadFile, ChainGate, LeakFree, Seats.Resolve, SendAndSeal;
    LoadedPayloads(m, c, plan.fs);
    forall i | 0 <= i < |plan.fs|
      ensures plan.fs[i].id in plan.inputs.payloads
      ensures Some(plan.inputs.payloads[plan.fs[i].id]) == ReadFile(m.disk, 2 + i, plan.fs[i].path)
    {
      BufferIsOneRead(m.disk, plan.fs, plan.inputs.payloads, i);
    }
  }

  /** The receipt of a run, whether it verified or not. */
  function ReceiptIn(o: Outcome): Option<Dict> {
    match o
    case Finished(receipt, _) => Some(receipt)
    case Unverified(receipt) => Some(receipt)
    case Uncombined(receipt) => Some(receipt)
    case _ => None
  }

  /**
    And the receipt of a run has exactly one event per seat, about exactly the bytes that were
    sent to it, also for the seats whose transport failed.
   */
  lemma ReceiptRecordsWhatWasSent(m: Machine, c: Command)
    requires ReceiptIn(Live(m, c).outcome).Some?
    ensures ReceiptRecords(m.p, ReceiptIn(Live(m, c).outcome).value, Live(m, c).sent, m.reply)
  {
    hide SendAndSeal, LoadInputs, ChainGate, LeakFree, ReadFile, Gates, Live, Seats.Resolve, Fragments,
      ReceiptRecords, ReceiptOf, RingAccepts, Normalize;
    var plan := PlanOf(m, c);
    SealedOutcome(m, plan.inputs, plan.seats, plan.prev);
    PlanBuffers(m, c, plan);
    forall i | 0 <= i < |plan.seats|
      ensures Normalize(plan.inputs.payloads[plan.seats[i].fid]) == plan.inputs.payloads[plan.seats[i].fid]
    {
      ReadIsNormal(m.disk, 2 + i, plan.fs[i].path);
    }
    SealedRecords(m, plan.inputs, plan.seats, plan.prev);
  }

  lemma SealedOutcome(m: Machine, inputs: Inputs, seats: seq<Seat>, prev: Option<string>)
    requires SeatsFit(inputs, seats)
    ensures var r := SendAndSeal(m, inputs, seats, prev);
            var receipt := ReceiptOf(m, inputs, seats, prev);
            && (r.outcome.Left? <==> Interrupted(m.reply, |seats|) || !CanSeal(m, inputs))
            && (!r.outcome.Left? ==>
                  r.sent == Trace(inputs, seats, |seats|) && ReceiptIn(r.outcome) == Some(receipt) &&
                  (r.outcome.Unverified? <==> !RingAccepts(m.p, m.ring, receipt)) &&
                  (r.outcome.Finished? <==> RingAccepts(m.p, m.ring, receipt) && m.combined))
  {
    hide ReceiptOf, RingAccepts;
    if Calls(m.reply, |seats|) < |seats| {
      assert m.reply(Calls(m.reply, |seats|) - 1).OtherException?;
    }
  }

  /**
    A run that sent something leaves a receipt exactly when no other exception ended it, the task
    type and every local-only value can be written, and policy, key and receipt file are at hand:
    otherwise payloads were sent and nothing is recorded.
   */
  lemma ReceiptIff(m: Machine, c: Command, plan: Plan)
    requires Settled(m, c, plan)
    ensures ReceiptIn(Live(m, c).outcome).Some? <==>
            !Interrupted(m.reply, |plan.seats|) && CanSeal(m, plan.inputs)
    ensures !Interrupted(m.reply, |plan.seats|) ==> |Live(m, c).sent| == |plan.seats|
  {
    hide SendAndSeal, Live, LoadInputs, LeakFree, ChainGate, Seats.Resolve, ReceiptOf, RingAccepts;
    SettledSends(m, c, plan);
    SealedOutcome(m, plan.inputs, plan.seats, plan.prev);
    SendingOutcome(m, plan.inputs, plan.seats, plan.prev);
    SentIsTrace(m, plan.inputs, plan.seats, plan.prev);
  }

  // ---------- the files may change ----------

  /** The two disks show the same at every read of the run after the fragments were declared. */
  predicate SameReads(a: Disk, b: Disk, c: Command, fs: seq<Fragment>) {
    && a(1, c.original) == b(1, c.original)
    && (forall i :: 0 <= i < |fs| ==> a(2 + i, fs[i].path) == b(2 + i, fs[i].path))
    && a(|fs| + 2, c.localOnly) == b(|fs| + 2, c.localOnly)
    && a(|fs| + 3, c.plan) == b(|fs| + 3, c.plan)
    && (c.chain.Some? ==> a(|fs| + 4, c.chain.value) == b(|fs| + 4, c.chain.value))
  }

  lemma {:induction false} SamePayloads(a: Disk, b: Disk, fs: seq<Fragment>, tick: nat)
    requires forall i :: 0 <= i < |fs| ==> a(tick + i, fs[i].path) == b(tick + i, fs[i].path)
    ensures Payloads(a, fs, tick) == Payloads(b, fs, tick)
  {
    if fs != [] {
      var n := |fs| - 1;
      assert forall i :: 0 <= i < n ==> fs[..n][i] == fs[i];
      SamePayloads(a, b, fs[..n], tick);
      assert a(tick + n, fs[n].path) == b(tick + n, fs[n].path);
    }
  }

  lemma SameInputs(m: Machine, d: Disk, c: Command, fs: seq<Fragment>)
    requires SameReads(m.disk, d, c, fs)
    ensures LoadInputs(m, c, fs) == LoadInputs(m.(disk := d), c, fs)
  {
    hide Normalize, LoadText;
    var a, b := TextReader(m.disk), TextReader(d);
    forall i | 0 <= i < |fs| ensures a(2 + i, fs[i].path) == b(2 + i, fs[i].path) {
      assert a(2 + i, fs[i].path) == ReadFile(m.disk, 2 + i, fs[i].path);
      assert b(2 + i, fs[i].path) == ReadFile(d, 2 + i, fs[i].path);
    }
    SamePayloads(a, b, fs, 2);
  }

  lemma SameFragments(m: Machine, d: Disk, c: Command)
    requires m.disk(0, c.plan) == d(0, c.plan)
    ensures FragmentsOf(m, c) == FragmentsOf(m.(disk := d), c)
  {
  }

  lemma SameGate(m: Machine, d: Disk, chain: Option<string>, tick: nat)
    requires chain.Some? ==> m.disk(tick, chain.value) == d(tick, chain.value)
    ensures ChainGate(m, chain, tick) == ChainGate(m.(disk := d), chain, tick)
  {
    hide LoadText, RingAccepts, Read;
  }

  lemma SameSending(m: Machine, d: Disk, inputs: Inputs, seats: seq<Seat>, prev: Option<string>)
    requires SeatsFit(inputs, seats)
    ensures SendAndSeal(m, inputs, seats, prev) == SendAndSeal(m.(disk := d), inputs, seats, prev)
  {
    hide RingAccepts, Signed, Body;
  }

  lemma SameGates(m: Machine, d: Disk, c: Command, fs: seq<Fragment>, inputs: Inputs)
    requires Unique(Ids(fs)) && forall f :: f in inputs.payloads <==> f in Ids(fs)
    requires SameReads(m.disk, d, c, fs)
    ensures Gates(m, c, fs, inputs) == Gates(m.(disk := d), c, fs, inputs)
  {
    hide SendAndSeal, ChainGate, LeakFree, UnderReports, Seats.Resolve;
    SameGate(m, d, c.chain, |fs| + 4);
    if Seats.Resolve(m.config, Ids(fs), c.specs).Seated? {
      ResolvedFit(m.config, fs, c.specs, inputs);
      SameSending(m, d, inputs, Seats.Resolve(m.config, Ids(fs), c.specs).seats,
                  if ChainGate(m, c.chain, |fs| + 4).Pass? then ChainGate(m, c.chain, |fs| + 4).prev else None);
    }
  }

  /**
    A run depends on the disk only through the reads at its start, one of each file but two of the
    masking plan: a file overwritten at any other moment, during the sends included, changes
    neither what is sent nor the receipt.
   */
  lemma OnlyFirstReadsMatter(m: Machine, d: Disk, c: Command)
    requires m.disk(0, c.plan) == d(0, c.plan)
    requires FragmentsOf(m, c).Some? ==> SameReads(m.disk, d, c, FragmentsOf(m, c).value)
    ensures Live(m, c) == Live(m.(disk := d), c)
  {
    hide Gates, LoadInputs, SameReads;
    SameFragments(m, d, c);
    if FragmentsOf(m, c).Some? {
      var fs := FragmentsOf(m, c).value;
      LiveMeans(m, c);
      LiveMeans(m.(disk := d), c);
      SameInputs(m, d, c, fs);
      if LoadInputs(m, c, fs).Some? {
        SameGates(m, d, c, fs, LoadInputs(m, c, fs).value);
      }
    }
  }

  // ---------- producer and verifier agree, run by run ----------

  /** The runtime finds the public half of its own key under its own key id. */
  predicate OwnKey(m: Machine) {
    m.ring(LOCAL_KEY_ID) == Some(m.p.publicOf(m.key))
  }

  lemma LocalKeyIdFits()
    ensures KeyId(LOCAL_KEY_ID)
  {
    assert LOCAL_KEY_ID[|LOCAL_KEY_ID| - 1] == 'y';
  }

  /** What the chain gate lets through is a hash in the verifier's form. */
  lemma GateHashFits(m: Machine, chain: Option<string>, tick: nat)
    requires ChainGate(m, chain, tick).Pass?
    ensures var prev := ChainGate(m, chain, tick).prev; prev.Some? ==> Hex64(prev.value)
  {
    hide LoadText, Read, DomainVerdict, SignatureVerdict, ReceiptHash, HasRequired, HexDigest;
  }

  lemma SignedShowsKeyId(p: Platform, key: PrivateKey, keyId: string, body: Dict)
    ensures PlainText(Signed(p, key, keyId, body), "signing_key_id") == Some(keyId)
  {
    hide ReceiptHash;
    Agreement.SealsAsSigned(p, key, keyId, body);
    var hash := ReceiptHash(p, Unhashed(body, keyId));
    Agreement.SealAdds(body, keyId, hash, SignatureDict(p, key, hash));
  }

  lemma ReceiptAccepted(m: Machine, inputs: Inputs, seats: seq<Seat>, prev: Option<string>)
    requires Laws(m.p) && OwnKey(m) && SeatsFit(inputs, seats) && seats != []
    requires prev.Some? ==> Hex64(prev.value)
    ensures var receipt := ReceiptOf(m, inputs, seats, prev);
            RingAccepts(m.p, m.ring, receipt) && Accepted(m.p, Some(m.p.publicOf(m.key)), receipt)
  {
    hide Accepted, Signed, Body, PlainText, Laws, Ulid, KeyId, Hex64;
    var c := ContextOf(m);
    var replies := Responses(m.reply, seats, |seats|);
    LocalKeyIdFits();
    Ulids.NewUlidCorrect(m.millis, m.random);
    Agreement.SignedAccepted(m.p, m.key, LOCAL_KEY_ID, c, inputs, seats, replies, prev);
    SignedShowsKeyId(m.p, m.key, LOCAL_KEY_ID, Body(m.p, c, inputs, seats, replies, prev));
  }

  /**
    Every run that gets to a receipt passes its own verification: no run ends with a receipt that
    the verifier refuses, and only another exception can keep a sending run from finishing.
   */
  lemma RunsVerify(m: Machine, c: Command)
    requires Laws(m.p) && OwnKey(m)
    ensures !Live(m, c).outcome.Unverified?
    ensures ReceiptIn(Live(m, c).outcome).Some? ==>
              Accepted(m.p, Some(m.p.publicOf(m.key)), ReceiptIn(Live(m, c).outcome).value)
  {
    hide Live, SendAndSeal, Laws, OwnKey, Accepted, RingAccepts, ChainGate, LoadInputs, LeakFree, Seats.Resolve,
      ReceiptOf;
    if ReceiptIn(Live(m, c).outcome).Some? {
      var plan := PlanOf(m, c);
      GateHashFits(m, c.chain, |plan.fs| + 4);
      ReceiptAccepted(m, plan.inputs, plan.seats, plan.prev);
      SealedOutcome(m, plan.inputs, plan.seats, plan.prev);
    }
  }

  // ---------- the exit code ----------

  lemma {:induction false} NoFailures(reply: nat -> Reply, seats: seq<Seat>, n: nat)
    requires n <= |seats|
    ensures Failures(reply, seats, n) == [] <==> forall i :: 0 <= i < n ==> !reply(i).TransportFailed?
  {
    if n > 0 {
      NoFailures(reply, seats, n - 1);
    }
  }

  lemma FinishedFailures(m: Machine, inputs: Inputs, seats: seq<Seat>, prev: Option<string>)
    requires SeatsFit(inputs, seats) && SendAndSeal(m, inputs, seats, prev).outcome.Finished?
    ensures SendAndSeal(m, inputs, seats, prev).outcome.failures == Failures(m.reply, seats, |seats|)
  {
    hide ReceiptOf, RingAccepts, Interrupted;
  }

  predicate AllAnswered(reply: nat -> Reply, n: nat) {
    forall i :: 0 <= i < n ==> reply(i).Answered?
  }

  lemma AnsweredIff(reply: nat -> Reply, seats: seq<Seat>)
    ensures AllAnswered(reply, |seats|) <==> !Interrupted(reply, |seats|) && Failures(reply, seats, |seats|) == []
  {
    NoFailures(reply, seats, |seats|);
    if !Interrupted(reply, |seats|) && Failures(reply, seats, |seats|) == [] {
      forall i | 0 <= i < |seats| ensures reply(i).Answered? {
        assert !reply(i).TransportFailed? && !reply(i).OtherException?;
      }
    }
  }

  /**
    `run` returns 0 exactly when every gate was passed, everything could be written, and every seat
    answered.
   */
  lemma ExitZeroIff(m: Machine, c: Command)
    requires Laws(m.p) && OwnKey(m)
    ensures ExitCode(Live(m, c).outcome) == 0 <==>
            m.combined &&
            exists plan :: Settled(m, c, plan) && CanSeal(m, plan.inputs) && AllAnswered(m.reply, |plan.seats|)
  {
    hide Live, Settled, SendAndSeal, Laws, OwnKey, Accepted, RingAccepts, ReceiptOf, AllAnswered, Interrupted, Failures,
      CanSeal;
    if ExitCode(Live(m, c).outcome) == 0 {
      var plan := PlanOf(m, c);
      PlanFits(m, c, plan);
      SealedOutcome(m, plan.inputs, plan.seats, plan.prev);
      FinishedFailures(m, plan.inputs, plan.seats, plan.prev);
      AnsweredIff(m.reply, plan.seats);
    }
    if plan :| m.combined && Settled(m, c, plan) && CanSeal(m, plan.inputs) && AllAnswered(m.reply, |plan.seats|) {
      PlanFits(m, c, plan);
      AnsweredIff(m.reply, plan.seats);
      SettledSends(m, c, plan);
      SendingOutcome(m, plan.inputs, plan.seats, plan.prev);
      SealedOutcome(m, plan.inputs, plan.seats, plan.prev);
      RunsVerify(m, c);
      FinishedFailures(m, plan.inputs, plan.seats, plan.prev);
    }
  }

  lemma PlanFits(m: Machine, c: Command, plan: Plan)
    requires Settled(m, c, plan)
    ensures SeatsFit(plan.inputs, plan.seats)
  {
  }
}
