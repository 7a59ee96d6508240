/**
  One live run from start to exit: everything is read from disk once, the gates are passed in
  order, one payload is sent per seat, and a receipt is built, signed, written and verified.
 */
module LiveRun {
  import opened Wrappers
  import opened Text
  import opened JsonText
  import opened Json
  import opened Platform
  import opened Receipts
  import opened Replace
  import opened Producer
  import Seats
  import Ulids

  // ---------- the world a run meets ----------

  datatype Fragment = Fragment(id: string, path: string)

  /** The file system at each read: whatever it holds may change between any two reads. */
  type Disk = (nat, string) -> Option<string>

  /** What one adapter call comes back with; anything but a transport error leaves the run. */
  datatype Reply = Answered(answer: Answer) | TransportFailed | OtherException

  type Random = r: nat | r < Ulids.RANDOM_RANGE

  datatype Machine = Machine(
    p: Platform,
    key: PrivateKey,
    ring: string -> Option<PublicKey>,      // public key found for a signing key id
    config: Seats.Configuration,
    disk: Disk,
    exists_: string -> bool,
    fragments: string -> Option<seq<Fragment>>, // fragments declared in a masking plan that parses
    taskType: string -> Option<Option<Json>>,   // its `task_type`, if it has one that JSON can write
    loose: string -> Option<Locals>,        // local-only text that only Python's laxer JSON reader accepts
    outDir: bool,                           // the output directory can be made
    sealing: bool,                          // policy, key pair and receipt file are at hand after the sends
    combined: bool,                         // the combined answer can be written
    reply: nat -> Reply,                    // outcome of the i-th adapter call
    millis: nat,
    random: Random,
    policyId: Json,
    provenance: Json)

  datatype Command = Command(
    original: string, localOnly: string, plan: string, specs: seq<string>, chain: Option<string>, consent: bool)

  const LOCAL_KEY_ID: string := "apl-local-demo-key"

  // ---------- load_fragments ----------

  predicate IsLower(c: char) {
    'a' <= c <= 'z'
  }

  /** `^[a-z][a-z0-9_-]{0,31}$` */
  predicate FragmentId(s: string) {
    var t := DropNewline(s);
    1 <= |t| <= 32 && IsLower(t[0]) &&
    forall i :: 1 <= i < |t| ==> IsLower(t[i]) || '0' <= t[i] <= '9' || t[i] == '_' || t[i] == '-'
  }

  function Ids(fs: seq<Fragment>): (r: seq<string>)
    ensures |r| == |fs| && forall i :: 0 <= i < |r| ==> r[i] == fs[i].id
  {
    seq(|fs|, i requires 0 <= i < |fs| => fs[i].id)
  }

  const LEGACY: seq<Fragment> :=
    [Fragment("mock_provider_a", "provider_a_payload.txt"), Fragment("mock_provider_b", "provider_b_payload.txt")]

  predicate FragmentsFit(exists_: string -> bool, fs: seq<Fragment>) {
    Unique(Ids(fs)) && forall i :: 0 <= i < |fs| ==> FragmentId(fs[i].id) && exists_(fs[i].path)
  }

  function Fragments(exists_: string -> bool, declared: seq<Fragment>): Option<seq<Fragment>> {
    if declared == [] then Some(LEGACY)
    else if 2 <= |declared| <= 5 && FragmentsFit(exists_, declared) then Some(declared)
    else None
  }

  /** The first of the two times the masking plan is read; without a plan nothing is declared. */
  function Declared(m: Machine, c: Command): Option<seq<Fragment>> {
    if !m.exists_(c.plan) then Some([])
    else
      var text :- m.disk(0, c.plan);
      m.fragments(text)
  }

  function FragmentsOf(m: Machine, c: Command): Option<seq<Fragment>> {
    var declared :- Declared(m, c);
    Fragments(m.exists_, declared)
  }

  /** `load_fragments`, from the parsed declarations: `seen` grows as fragments are appended. */
  method LoadFragments(exists_: string -> bool, declared: seq<Fragment>) returns (r: Option<seq<Fragment>>)
    ensures r == Fragments(exists_, declared)
  {
    if declared == [] {
      return Some(LEGACY);
    }
    if !(2 <= |declared| <= 5) {
      return None;
    }
    var frags: seq<Fragment>, seen: set<string> := [], {};
    for i := 0 to |declared|
      invariant frags == declared[..i]
      invariant FragmentsFit(exists_, frags)
      invariant forall x :: x in seen <==> x in Ids(frags)
    {
      var f := declared[i];
      if !FragmentId(f.id) {
        return None;
      }
      if f.id in seen {
        assert f.id in Ids(frags);
        var j :| 0 <= j < i && Ids(frags)[j] == f.id;
        assert Ids(declared)[j] == Ids(declared)[i];
        return None;
      }
      seen := seen + {f.id};
      if !exists_(f.path) {
        return None;
      }
      IdsExtend(frags, f);
      frags := frags + [f];
    }
    assert frags == declared;
    r := Some(frags);
  }

  lemma IdsExtend(fs: seq<Fragment>, f: Fragment)
    ensures Ids(fs + [f]) == Ids(fs) + [f.id]
  {
  }

  lemma IdWithoutSign(s: string)
    requires FragmentId(s)
    ensures s != "" && '=' !in s
  {
    forall k | 0 <= k < |s| ensures s[k] != '=' {
      assert k < |DropNewline(s)| ==> DropNewline(s)[k] == s[k];
    }
  }

  lemma FragmentIdsGood(exists_: string -> bool, declared: seq<Fragment>)
    requires Fragments(exists_, declared).Some?
    ensures var fs := Fragments(exists_, declared).value; Seats.GoodIds(Ids(fs)) && 2 <= |fs| <= 5
  {
    var fs := Fragments(exists_, declared).value;
    if declared == [] {
      assert Ids(fs)[0] == "mock_provider_a" && Ids(fs)[1] == "mock_provider_b";
      assert "mock_provider_a"[14] == 'a' && "mock_provider_b"[14] == 'b';
    } else {
      forall i | 0 <= i < |fs| ensures Ids(fs)[i] != "" && '=' !in Ids(fs)[i] {
        IdWithoutSign(fs[i].id);
      }
    }
  }

  // ---------- load_run_inputs ----------

  /** `read_text`, at the `tick`-th read of the run. */
  function ReadFile(disk: Disk, tick: nat, path: string): Option<string> {
    match disk(tick, path)
    case None => None
    case Some(raw) => Some(Normalize(raw))
  }

  function TextReader(disk: Disk): Disk {
    (tick: nat, path: string) => ReadFile(disk, tick, path)
  }

  /** The payload files, read one after another from `tick` on. */
  function Payloads(read: Disk, fs: seq<Fragment>, tick: nat): (r: Option<map<string, string>>)
    ensures r.Some? <==> forall i :: 0 <= i < |fs| ==> read(tick + i, fs[i].path).Some?
    ensures r.Some? ==> forall f :: f in r.value <==> f in Ids(fs)
  {
    if fs == [] then Some(map[])
    else
      var n := |fs| - 1;
      IdsExtend(fs[..n], fs[n]);
      assert fs == fs[..n] + [fs[n]];
      match (Payloads(read, fs[..n], tick), read(tick + n, fs[n].path))
      case (Some(m), Some(text)) => Some(m[fs[n].id := text])
      case _ => None
  }

  lemma LastPayload(read: Disk, fs: seq<Fragment>, tick: nat)
    requires fs != [] && Payloads(read, fs, tick).Some?
    ensures var n := |fs| - 1;
            && Payloads(read, fs[..n], tick).Some? && read(tick + n, fs[n].path).Some?
            && Payloads(read, fs, tick).value
               == Payloads(read, fs[..n], tick).value[fs[n].id := read(tick + n, fs[n].path).value]
  {
  }

  lemma {:induction false} PayloadAt(read: Disk, fs: seq<Fragment>, tick: nat, i: nat)
    requires Unique(Ids(fs)) && Payloads(read, fs, tick).Some? && i < |fs|
    ensures fs[i].id in Payloads(read, fs, tick).value
    ensures Some(Payloads(read, fs, tick).value[fs[i].id]) == read(tick + i, fs[i].path)
  {
    var n := |fs| - 1;
    LastPayload(read, fs, tick);
    if i < n {
      var init := fs[..n];
      assert init[i] == fs[i] && Ids(init) == Ids(fs)[..n];
      PayloadAt(read, init, tick, i);
      assert Ids(fs)[i] != Ids(fs)[n];
    }
  }

  lemma ReaderReads(disk: Disk, tick: nat, path: string)
    ensures TextReader(disk)(tick, path) == ReadFile(disk, tick, path)
  {
    hide ReadFile;
  }

  /** Every buffer is what one read returned, at that read's own moment. */
  lemma {:induction false} BufferIsOneRead(disk: Disk, fs: seq<Fragment>, payloads: map<string, string>, i: nat)
    requires Unique(Ids(fs)) && i < |fs|
    requires Payloads(TextReader(disk), fs, 2) == Some(payloads)
    ensures fs[i].id in payloads && Some(payloads[fs[i].id]) == ReadFile(disk, 2 + i, fs[i].path)
  {
    hide Payloads, TextReader, ReadFile, Ids, Unique;
    ReaderReads(disk, 2 + i, fs[i].path);
    PayloadAt(TextReader(disk), fs, 2, i);
  }

  /** `json.loads` of the local-only text, repeated names kept last; the run needs an object. */
  function LoadLocals(m: Machine, text: string): Option<Locals> {
    match LoadText(LastWins, text)
    case None => m.loose(text)
    case Some(v) => if v.Obj? then Some(LocalsOf(m.p, v.m)) else None
  }

  /** Local-only values and plan, after the original and the `n` payloads. */
  function LoadRest(m: Machine, c: Command, n: nat, original: string, payloads: map<string, string>)
    : (r: Option<Inputs>)
    ensures r.Some? ==> r.value.original == original && r.value.payloads == payloads
  {
    var localText :- m.disk(n + 2, c.localOnly);
    var locals :- LoadLocals(m, localText);
    var planText :- m.disk(n + 3, c.plan);
    var taskType :- m.taskType(planText);
    Some(Inputs(original, payloads, locals, taskType))
  }

  /** `load_run_inputs`: original, payloads, local-only values, plan, each read exactly once. */
  function LoadInputs(m: Machine, c: Command, fs: seq<Fragment>): Option<Inputs> {
    var original :- ReadFile(m.disk, 1, c.original);
    var payloads :- Payloads(TextReader(m.disk), fs, 2);
    LoadRest(m, c, |fs|, original, payloads)
  }

  /** The loop that fills the payload buffers. */
  method ReadPayloads(read: Disk, fs: seq<Fragment>, tick: nat) returns (r: Option<map<string, string>>)
    ensures r == Payloads(read, fs, tick)
  {
    hide Ids, IsLower;
    var buffers: map<string, string> := map[];
    for i := 0 to |fs|
      invariant Payloads(read, fs[..i], tick) == Some(buffers)
    {
      assert fs[..i + 1][..i] == fs[..i];
      var text := read(tick + i, fs[i].path);
      if text.None? {
        return None;
      }
      buffers := buffers[fs[i].id := text.value];
    }
    assert fs[..|fs|] == fs;
    r := Some(buffers);
  }

  /** `load_run_inputs` */
  method LoadRunInputs(m: Machine, c: Command, fs: seq<Fragment>) returns (r: Option<Inputs>)
    ensures r == LoadInputs(m, c, fs)
  {
    var original := ReadFile(m.disk, 1, c.original);
    if original.None? {
      return None;
    }
    var payloads := ReadPayloads(TextReader(m.disk), fs, 2);
    if payloads.None? {
      return None;
    }
    r := LoadRest(m, c, |fs|, original.value, payloads.value);
  }

  // ---------- the leak gate ----------

  /** What is looked for: lower-cased and stripped. */
  function Needle(p: Platform, v: LocalValue): Option<string> {
    if v.looked.Some? then Some(p.strip(p.lower(v.looked.value))) else None
  }

  predicate Leaks(p: Platform, v: LocalValue, payload: string) {
    var needle := Needle(p, v);
    needle.Some? && |needle.value| >= 4 && Occurs(needle.value, p.lower(payload))
  }

  predicate LeakFree(p: Platform, inputs: Inputs) {
    forall k, f :: k in inputs.localOnly && f in inputs.payloads ==> !Leaks(p, inputs.localOnly[k], inputs.payloads[f])
  }

  datatype Finding = Finding(field: string, fid: string)

  predicate IsFinding(p: Platform, inputs: Inputs, x: Finding) {
    x.field in inputs.localOnly && x.fid in inputs.payloads &&
    Leaks(p, inputs.localOnly[x.field], inputs.payloads[x.fid])
  }

  /** `leak_findings_from_texts`: every value of four characters or more against every payload. */
  method LeakFindings(p: Platform, inputs: Inputs) returns (findings: seq<Finding>)
    ensures forall x :: x in findings <==> IsFinding(p, inputs, x)
    ensures findings == [] <==> LeakFree(p, inputs)
  {
    findings := [];
    var fields := inputs.localOnly.Keys;
    while fields != {}
      invariant fields <= inputs.localOnly.Keys
      invariant forall x :: x in findings <==> IsFinding(p, inputs, x) && x.field !in fields
    {
      var field :| field in fields;
      fields := fields - {field};
      var more := FieldFindings(p, inputs, field);
      findings := findings + more;
    }
    assert findings != [] ==> IsFinding(p, inputs, findings[0]);
    if !LeakFree(p, inputs) {
      var k, f :| k in inputs.localOnly && f in inputs.payloads && Leaks(p, inputs.localOnly[k], inputs.payloads[f]);
      assert Finding(k, f) in findings;
    }
  }

  /** The inner loop, over the payloads. */
  method FieldFindings(p: Platform, inputs: Inputs, field: string) returns (findings: seq<Finding>)
    requires field in inputs.localOnly
    ensures forall x :: x in findings <==> IsFinding(p, inputs, x) && x.field == field
  {
    findings := [];
    var needle := Needle(p, inputs.localOnly[field]);
    if needle.None? || |needle.value| < 4 {
      return;
    }
    var fids := inputs.payloads.Keys;
    while fids != {}
      invariant fids <= inputs.payloads.Keys
      invariant forall x :: x in findings <==> IsFinding(p, inputs, x) && x.field == field && x.fid !in fids
    {
      var fid :| fid in fids;
      fids := fids - {fid};
      if Occurs(needle.value, p.lower(inputs.payloads[fid])) {
        findings := findings + [Finding(field, fid)];
      }
    }
  }

  // ---------- the chain gate ----------

  datatype Gate = Refuse | Pass(prev: Option<string>)

  /** Verification with the key the runtime finds for the receipt's own key id. */
  predicate RingAccepts(p: Platform, ring: string -> Option<PublicKey>, m: Dict) {
    match PlainText(m, "signing_key_id")
    case None => false
    case Some(id) => Accepted(p, ring(id), m)
  }

  /** The previous receipt is read at `tick`, parsed strictly and verified, or the chain is refused. */
  function ChainGate(m: Machine, chain: Option<string>, tick: nat): Gate {
    if chain.None? || chain.value == "" then Pass(Option.None)
    else
      match m.disk(tick, chain.value)
      case None => Refuse
      case Some(text) =>
        match LoadText(Strict, text)
        case None => Refuse
        case Some(v) =>
          if v.Obj? && RingAccepts(m.p, m.ring, v.m) then Pass(Some(Read(v.m).value.hash)) else Refuse
  }

  // ---------- sending ----------

  datatype Transmission = Transmission(fid: string, host: string, model: string, prompt: string)

  function TransmissionOf(inputs: Inputs, s: Seat): Transmission
    requires s.fid in inputs.payloads
  {
    Transmission(s.fid, s.host, s.model, inputs.payloads[s.fid])
  }

  function Trace(inputs: Inputs, seats: seq<Seat>, n: nat): (r: seq<Transmission>)
    requires SeatsFit(inputs, seats) && n <= |seats|
    ensures |r| == n && forall i :: 0 <= i < n ==> r[i] == TransmissionOf(inputs, seats[i])
  {
    seq(n, i requires 0 <= i < n => TransmissionOf(inputs, seats[i]))
  }

  /** Calls made before the run ends or leaves with another exception; the failing call was sent too. */
  function Calls(reply: nat -> Reply, n: nat): (k: nat)
    ensures k <= n
    ensures k < n ==> k > 0 && reply(k - 1).OtherException?
    ensures forall i :: 0 <= i < k - 1 ==> !reply(i).OtherException?
  {
    if n == 0 then 0
    else
      var k := Calls(reply, n - 1);
      if k < n - 1 || (k > 0 && reply(k - 1).OtherException?) then k else n
  }

  predicate Interrupted(reply: nat -> Reply, n: nat) {
    exists i :: 0 <= i < n && reply(i).OtherException?
  }

  /** `responses`: an answer, or None for a seat whose transport failed. */
  function Responses(reply: nat -> Reply, seats: seq<Seat>, n: nat): Replies
    requires n <= |seats|
  {
    if n == 0 then map[]
    else
      Responses(reply, seats, n - 1)[seats[n - 1].fid :=
        if reply(n - 1).Answered? then Some(reply(n - 1).answer) else Option.None]
  }

  /** `failures`: the seats whose transport failed, in order. */
  function Failures(reply: nat -> Reply, seats: seq<Seat>, n: nat): seq<string>
    requires n <= |seats|
  {
    if n == 0 then []
    else Failures(reply, seats, n - 1) + if reply(n - 1).TransportFailed? then [seats[n - 1].fid] else []
  }

  lemma TraceNext(inputs: Inputs, seats: seq<Seat>, n: nat)
    requires SeatsFit(inputs, seats) && n < |seats|
    ensures Trace(inputs, seats, n + 1) == Trace(inputs, seats, n) + [TransmissionOf(inputs, seats[n])]
  {
  }

  // ---------- the run ----------

  datatype Outcome =
    | BadExample
    | Unreadable
    | LeakRefused
    | ChainRefused
    | SeatsRefused(error: Seats.SeatError)
    | AccountingRefused
    | NotConsented
    | NoOutput
    | Left
    | Unverified(receipt: Dict)
    | Uncombined(receipt: Dict)
    | Finished(receipt: Dict, failures: seq<string>)

  datatype Run = Run(outcome: Outcome, sent: seq<Transmission>)

  /** 0 for a complete run, 2 for a configuration error, 1 for everything else `run` returns. */
  function ExitCode(o: Outcome): int {
    match o
    case SeatsRefused(_) => 2
    case Finished(_, failures) => if failures == [] then 0 else 1
    case _ => 1
  }

  function ContextOf(m: Machine): Context {
    Context(Ulids.NewUlid(m.millis, m.random), m.policyId, m.provenance)
  }

  function ReceiptOf(m: Machine, inputs: Inputs, seats: seq<Seat>, prev: Option<string>): Dict
    requires SeatsFit(inputs, seats)
  {
    Signed(m.p, m.key, LOCAL_KEY_ID,
           Body(m.p, ContextOf(m), inputs, seats, Responses(m.reply, seats, |seats|), prev))
  }

  /** The body can be written and signed, and the receipt saved. */
  predicate CanSeal(m: Machine, inputs: Inputs) {
    Sealable(inputs) && m.sealing
  }

  /**
    Sending and what follows, once every gate was passed.  That the receipt cannot be made is
    noticed only after everything was sent.
   */
  function SendAndSeal(m: Machine, inputs: Inputs, seats: seq<Seat>, prev: Option<string>): Run
    requires SeatsFit(inputs, seats)
  {
    var n := |seats|;
    var sent := Trace(inputs, seats, Calls(m.reply, n));
    if Interrupted(m.reply, n) || !CanSeal(m, inputs) then Run(Left, sent)
    else
      var receipt := ReceiptOf(m, inputs, seats, prev);
      Run(Verified(m, receipt, Failures(m.reply, seats, n)), sent)
  }

  /** After the receipt was written: its verification, then the combined answer. */
  function Verified(m: Machine, receipt: Dict, failures: seq<string>): Outcome {
    if !RingAccepts(m.p, m.ring, receipt) then Unverified(receipt)
    else if m.combined then Finished(receipt, failures)
    else Uncombined(receipt)
  }

  function Stop(o: Outcome): Run {
    Run(o, [])
  }

  /** The gates after the inputs were loaded, in the order of the source. */
  function Gates(m: Machine, c: Command, fs: seq<Fragment>, inputs: Inputs): Run
    requires Unique(Ids(fs)) && forall f :: f in inputs.payloads <==> f in Ids(fs)
  {
    if !LeakFree(m.p, inputs) then Stop(LeakRefused)
    else
      match ChainGate(m, c.chain, |fs| + 4)
      case Refuse => Stop(ChainRefused)
      case Pass(prev) =>
        match Seats.Resolve(m.config, Ids(fs), c.specs)
        case Failed(e) => Stop(SeatsRefused(e))
        case Seated(seats) =>
          if UnderReports(inputs.original, inputs.payloads) then Stop(AccountingRefused)
          else if !c.consent then Stop(NotConsented)
          else if !m.outDir then Stop(NoOutput)
          else
            ResolvedFit(m.config, fs, c.specs, inputs);
            SendAndSeal(m, inputs, seats, prev)
  }

  function Live(m: Machine, c: Command): Run {
    match FragmentsOf(m, c)
    case None => Stop(BadExample)
    case Some(fs) =>
      FragmentIdsGood(m.exists_, Declared(m, c).value);
      match LoadInputs(m, c, fs)
      case None => Stop(Unreadable)
      case Some(inputs) => Gates(m, c, fs, inputs)
  }

  lemma ResolvedFit(config: Seats.Configuration, fs: seq<Fragment>, specs: seq<string>, inputs: Inputs)
    requires Unique(Ids(fs)) && forall f :: f in inputs.payloads <==> f in Ids(fs)
    requires Seats.Resolve(config, Ids(fs), specs).Seated?
    ensures SeatsFit(inputs, Seats.Resolve(config, Ids(fs), specs).seats)
  {
    Seats.ResolvedDistinct(config, Ids(fs), specs);
    var seats := Seats.Resolve(config, Ids(fs), specs).seats;
    forall i | 0 <= i < |seats| ensures seats[i].fid in inputs.payloads {
      assert Ids(fs)[i] in Ids(fs);
    }
  }
}
