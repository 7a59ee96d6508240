/**
  What the gates of a run ask, written out: which previous receipt may be chained onto, which
  values may not be sent, and which refusal comes first.
 */
module Conduct {
  import opened Wrappers
  import opened JsonText
  import opened Json
  import opened Platform
  import opened Receipts
  import opened Replace
  import opened Producer
  import opened LiveRun
  import opened RunFacts
  import Agreement
  import Chain
  import RunChain
  import Seats

  // ---------- the previous receipt ----------

  predicate Chains(c: Command) {
    c.chain.Some? && c.chain.value != ""
  }

  /** The file strictly loads to a receipt that verifies under the key found for its own key id. */
  predicate Genuine(m: Machine, path: string, tick: nat, d: Dict) {
    m.disk(tick, path).Some? && LoadText(Strict, m.disk(tick, path).value) == Some(Obj(d)) &&
    "signing_key_id" in d && d["signing_key_id"].Str? && Accepted(m.p, m.ring(d["signing_key_id"].s), d)
  }

  lemma AcceptedNamesKey(p: Platform, pub: Option<PublicKey>, d: Dict)
    requires Accepted(p, pub, d)
    ensures "signing_key_id" in d && d["signing_key_id"].Str?
    ensures "receipt_hash" in d && d["receipt_hash"] == Str(Read(d).value.hash)
  {
    hide Read, ShapeVerdict, DomainVerdict, SignatureVerdict, ReceiptHash, PlainText;
    Chain.RequiredHashes(p, pub, d);
    assert REQUIRED[11] == "signing_key_id";
    ReadNamesKey(d);
    KeyIsText(d);
    Chain.ReadHash(d);
  }

  lemma KeyIsText(d: Dict)
    ensures "signing_key_id" in d && PlainText(d, "signing_key_id").Some? ==> d["signing_key_id"].Str?
  {
  }

  lemma ReadNamesKey(d: Dict)
    ensures Read(d).Some? ==> PlainText(d, "signing_key_id").Some?
  {
    hide ReadAll, ReadDomains, ReadSignature;
  }

  lemma RingAcceptsIs(p: Platform, ring: string -> Option<PublicKey>, d: Dict)
    ensures RingAccepts(p, ring, d) <==>
            "signing_key_id" in d && d["signing_key_id"].Str? && Accepted(p, ring(d["signing_key_id"].s), d)
  {
    hide Accepted;
    if RingAccepts(p, ring, d) {
      AcceptedNamesKey(p, ring(PlainText(d, "signing_key_id").value), d);
    }
  }

  /** The gate lets a chained run through exactly with a genuine receipt, and hands on its recorded hash. */
  lemma ChainGateIs(m: Machine, chain: Option<string>, tick: nat)
    ensures chain.None? || chain.value == "" ==> ChainGate(m, chain, tick) == Pass(None)
    ensures chain.Some? && chain.value != "" && (forall d: Dict :: !Genuine(m, chain.value, tick, d)) ==>
              ChainGate(m, chain, tick) == Refuse
    ensures chain.Some? && chain.value != "" ==>
              forall d: Dict :: Genuine(m, chain.value, tick, d) ==>
                "receipt_hash" in d && d["receipt_hash"].Str? &&
                ChainGate(m, chain, tick) == Pass(Some(d["receipt_hash"].s))
  {
    hide LoadText, Accepted, Read, RingAccepts;
    if chain.Some? && chain.value != "" {
      forall d: Dict | Genuine(m, chain.value, tick, d)
        ensures "receipt_hash" in d && d["receipt_hash"].Str? &&
                ChainGate(m, chain, tick) == Pass(Some(d["receipt_hash"].s))
      {
        RingAcceptsIs(m.p, m.ring, d);
        AcceptedNamesKey(m.p, m.ring(d["signing_key_id"].s), d);
      }
      if ChainGate(m, chain, tick).Pass? {
        var d := LoadText(Strict, m.disk(tick, chain.value).value).value.m;
        RingAcceptsIs(m.p, m.ring, d);
        assert Genuine(m, chain.value, tick, d);
      }
    }
  }

  /** A chained run that sent something was given a genuine receipt, and links to the hash it records. */
  lemma ChainedRun(m: Machine, c: Command) returns (fs: seq<Fragment>, d: Dict)
    requires Live(m, c).sent != [] && Chains(c)
    ensures FragmentsOf(m, c) == Some(fs) && Genuine(m, c.chain.value, |fs| + 4, d) && "receipt_hash" in d
    ensures var receipt := ReceiptIn(Live(m, c).outcome);
            receipt.Some? ==>
              "prev_receipt_hash" in receipt.value && receipt.value["prev_receipt_hash"] == d["receipt_hash"]
  {
    hide Live, ChainGate, SendAndSeal, LoadInputs, LeakFree, Genuine, RingAccepts, Seats.Resolve, ReceiptOf;
    var plan := PlanOf(m, c);
    fs := plan.fs;
    ChainGateIs(m, c.chain, |fs| + 4);
    d :| Genuine(m, c.chain.value, |fs| + 4, d);
    SealedOutcome(m, plan.inputs, plan.seats, plan.prev);
    RunChain.SealedPrev(m, plan.inputs, plan.seats, plan.prev);
    assert d["receipt_hash"] == Str(plan.prev.value);
  }

  /** The receipt of a run that was not told to chain names no previous one. */
  lemma UnchainedRun(m: Machine, c: Command)
    requires ReceiptIn(Live(m, c).outcome).Some? && !Chains(c)
    ensures var receipt := ReceiptIn(Live(m, c).outcome).value;
            "prev_receipt_hash" in receipt && receipt["prev_receipt_hash"] == Null
  {
    hide Live, ChainGate, SendAndSeal, LoadInputs, LeakFree, RingAccepts, Seats.Resolve, ReceiptOf;
    var plan := PlanOf(m, c);
    ChainGateIs(m, c.chain, |plan.fs| + 4);
    SealedOutcome(m, plan.inputs, plan.seats, plan.prev);
    RunChain.SealedPrev(m, plan.inputs, plan.seats, plan.prev);
  }

  // ---------- local-only values ----------

  predicate SliceIs(text: string, part: string, i: int) {
    0 <= i <= |text| - |part| && text[i..i + |part|] == part
  }

  /** The value, lower-cased and then stripped, has four characters or more and is in the lower-cased text. */
  ghost predicate Found(p: Platform, value: string, text: string) {
    var needle := p.strip(p.lower(value));
    |needle| >= 4 && exists i :: SliceIs(p.lower(text), needle, i)
  }

  lemma LeaksIs(p: Platform, v: LocalValue, text: string)
    ensures Leaks(p, v, text) <==> v.looked.Some? && Found(p, v.looked.value, text)
  {
    if v.looked.Some? {
      var needle, all := p.strip(p.lower(v.looked.value)), p.lower(text);
      if i :| 0 <= i <= |all| && At(needle, all, i) {
        assert SliceIs(all, needle, i);
      }
      if i :| SliceIs(all, needle, i) {
        assert At(needle, all, i);
      }
    }
  }

  /** Some value of the local-only file is in some payload. */
  ghost predicate SomeValueFound(p: Platform, inputs: Inputs) {
    exists k, f :: k in inputs.localOnly && f in inputs.payloads && inputs.localOnly[k].looked.Some? &&
                   Found(p, inputs.localOnly[k].looked.value, inputs.payloads[f])
  }

  lemma LeakFreeIs(p: Platform, inputs: Inputs)
    ensures LeakFree(p, inputs) <==> !SomeValueFound(p, inputs)
  {
    hide Leaks, Found;
    forall k, f | k in inputs.localOnly && f in inputs.payloads
      ensures Leaks(p, inputs.localOnly[k], inputs.payloads[f]) <==>
              inputs.localOnly[k].looked.Some? && Found(p, inputs.localOnly[k].looked.value, inputs.payloads[f])
    {
      LeaksIs(p, inputs.localOnly[k], inputs.payloads[f]);
    }
    if !LeakFree(p, inputs) {
      var k, f :| k in inputs.localOnly && f in inputs.payloads && Leaks(p, inputs.localOnly[k], inputs.payloads[f]);
      assert SomeValueFound(p, inputs);
    }
  }

  lemma LoadedLocals(m: Machine, c: Command, fs: seq<Fragment>)
    requires LoadInputs(m, c, fs).Some?
    ensures m.disk(|fs| + 2, c.localOnly).Some?
    ensures LoadLocals(m, m.disk(|fs| + 2, c.localOnly).value) == Some(LoadInputs(m, c, fs).value.localOnly)
  {
    hide LoadLocals, Payloads, ReadFile;
  }

  /** The text a value of the local-only file is looked for and, if it is a string, hashed by. */
  function ShownAs(p: Platform, v: Json): string {
    if v.Str? then v.s else p.str(v)
  }

  /** No prompt that is ever sent contains a value of the local-only file. */
  lemma NoValueSent(m: Machine, c: Command, fs: seq<Fragment>, text: string, d: Dict, k: string, i: nat)
    requires FragmentsOf(m, c) == Some(fs) && m.disk(|fs| + 2, c.localOnly) == Some(text)
    requires LoadText(LastWins, text) == Some(Obj(d)) && k in d && i < |Live(m, c).sent|
    ensures !Found(m.p, ShownAs(m.p, d[k]), Live(m, c).sent[i].prompt)
  {
    hide Live, ChainGate, SendAndSeal, LoadInputs, LeakFree, LoadText, Found, Leaks, Seats.Resolve;
    var plan := PlanOf(m, c);
    LoadedLocals(m, c, fs);
    assert plan.inputs.localOnly == LocalsOf(m.p, d);
    SentPromptsClean(m, c, plan);
    assert PromptClean(m.p, plan.inputs.localOnly, Live(m, c).sent[i].prompt);
    assert k in plan.inputs.localOnly;
    LeaksIs(m.p, plan.inputs.localOnly[k], Live(m, c).sent[i].prompt);
  }

  // ---------- the declared fragments ----------

  predicate IdRest(c: char) {
    'a' <= c <= 'z' || '0' <= c <= '9' || c == '_' || c == '-'
  }

  predicate IdSpelled(s: string) {
    1 <= |s| <= 32 && 'a' <= s[0] <= 'z' && forall i :: 0 < i < |s| ==> IdRest(s[i])
  }

  /** A letter and up to 31 letters, digits, underscores and hyphens, and possibly one line feed after them. */
  predicate IdFits(s: string) {
    IdSpelled(s) || (s != "" && s[|s| - 1] == '\n' && IdSpelled(s[..|s| - 1]))
  }

  lemma IdIs(s: string)
    ensures FragmentId(s) <==> IdFits(s)
  {
    assert !IdRest('\n');
    if s != "" && s[|s| - 1] == '\n' {
      assert DropNewline(s) == s[..|s| - 1];
      assert !IdSpelled(s);
    } else {
      assert DropNewline(s) == s;
    }
  }

  predicate AllUsable(exists_: string -> bool, fs: seq<Fragment>) {
    forall i :: 0 <= i < |fs| ==> IdFits(fs[i].id) && exists_(fs[i].path)
  }

  predicate NoIdTwice(fs: seq<Fragment>) {
    forall i, j :: 0 <= i < j < |fs| ==> fs[i].id != fs[j].id
  }

  /**
    No declaration means the two legacy payload files; otherwise two to five fragments of different,
    well-formed ids with existing files are taken as declared, and everything else is refused.
   */
  lemma FragmentsAre(exists_: string -> bool, declared: seq<Fragment>)
    ensures declared == [] ==>
              Fragments(exists_, declared) == Some([Fragment("mock_provider_a", "provider_a_payload.txt"),
                                                    Fragment("mock_provider_b", "provider_b_payload.txt")])
    ensures declared != [] ==>
              if 2 <= |declared| <= 5 && AllUsable(exists_, declared) && NoIdTwice(declared)
              then Fragments(exists_, declared) == Some(declared)
              else Fragments(exists_, declared) == None
  {
    forall i | 0 <= i < |declared| ensures FragmentId(declared[i].id) <==> IdFits(declared[i].id) {
      IdIs(declared[i].id);
    }
    hide FragmentId, IdFits;
  }

  /** Without a plan the legacy payload files are used; a plan is read before anything else. */
  lemma PlanDeclares(m: Machine, c: Command)
    ensures !m.exists_(c.plan) ==>
              FragmentsOf(m, c) == Some([Fragment("mock_provider_a", "provider_a_payload.txt"),
                                         Fragment("mock_provider_b", "provider_b_payload.txt")])
    ensures m.exists_(c.plan) && FragmentsOf(m, c).Some? ==>
              m.disk(0, c.plan).Some? && m.fragments(m.disk(0, c.plan).value).Some? &&
              FragmentsOf(m, c) == Fragments(m.exists_, m.fragments(m.disk(0, c.plan).value).value)
  {
    hide FragmentsFit;
  }

  // ---------- the seats that failed ----------

  predicate FailedAt(reply: nat -> Reply, seats: seq<Seat>, fid: string, i: nat)
    requires i < |seats|
  {
    seats[i].fid == fid && reply(i).TransportFailed?
  }

  lemma {:induction false} FailuresBefore(reply: nat -> Reply, seats: seq<Seat>, n: nat, fid: string)
    requires n <= |seats|
    ensures fid in Failures(reply, seats, n) <==> exists i :: 0 <= i < n && FailedAt(reply, seats, fid, i)
  {
    if n > 0 {
      FailuresBefore(reply, seats, n - 1, fid);
      assert FailedAt(reply, seats, fid, n - 1) <==> seats[n - 1].fid == fid && reply(n - 1).TransportFailed?;
    }
  }

  /** The failures a finished run reports are the fragments whose transport failed. */
  lemma ReportedFailures(m: Machine, c: Command, fid: string) returns (seats: seq<Seat>)
    requires Live(m, c).outcome.Finished?
    ensures FragmentsOf(m, c).Some?
    ensures Seats.Resolve(m.config, Ids(FragmentsOf(m, c).value), c.specs) == Seats.Seated(seats)
    ensures fid in Live(m, c).outcome.failures <==>
            exists i :: 0 <= i < |seats| && FailedAt(m.reply, seats, fid, i)
  {
    hide Live, ChainGate, SendAndSeal, LoadInputs, LeakFree, RingAccepts, Seats.Resolve, ReceiptOf, Failures, FailedAt;
    var plan := PlanOf(m, c);
    seats := plan.seats;
    PlanFits(m, c, plan);
    FinishedFailures(m, plan.inputs, plan.seats, plan.prev);
    FailuresBefore(m.reply, seats, |seats|, fid);
  }

  // ---------- which refusal comes first ----------

  /** Told to chain, and nothing genuine at the time of the read. */
  ghost predicate BadChain(m: Machine, c: Command, fs: seq<Fragment>) {
    Chains(c) && NothingGenuine(m, c.chain.value, |fs| + 4)
  }

  ghost predicate NothingGenuine(m: Machine, path: string, tick: nat) {
    forall d: Dict :: !Genuine(m, path, tick, d)
  }

  /** An empty original, and a payload that is not. */
  predicate UnderReported(inputs: Inputs) {
    inputs.original == "" && exists f :: f in inputs.payloads && inputs.payloads[f] != ""
  }

  /** A run without usable fragments, or with an unreadable input, stops before any gate. */
  lemma StopsUnloaded(m: Machine, c: Command)
    ensures FragmentsOf(m, c).None? ==> Live(m, c) == Run(BadExample, [])
    ensures FragmentsOf(m, c).Some? && LoadInputs(m, c, FragmentsOf(m, c).value).None? ==>
              Live(m, c) == Run(Unreadable, [])
  {
    hide Gates, LoadInputs;
  }

  /**
    With everything loaded, the first of these decides: a local-only value in a payload, a previous
    receipt that is not genuine, seats that do not resolve, an empty original, missing consent, no
    output directory.  Each stops the run before anything is sent; otherwise something is sent.
   */
  lemma FirstRefusalDecides(m: Machine, c: Command, fs: seq<Fragment>, inputs: Inputs)
    requires FragmentsOf(m, c) == Some(fs) && LoadInputs(m, c, fs) == Some(inputs)
    ensures var seats := Seats.Resolve(m.config, Ids(fs), c.specs);
            if SomeValueFound(m.p, inputs) then Live(m, c) == Run(LeakRefused, [])
            else if BadChain(m, c, fs) then Live(m, c) == Run(ChainRefused, [])
            else if seats.Failed? then Live(m, c) == Run(SeatsRefused(seats.error), [])
            else if UnderReported(inputs) then Live(m, c) == Run(AccountingRefused, [])
            else if !c.consent then Live(m, c) == Run(NotConsented, [])
            else if !m.outDir then Live(m, c) == Run(NoOutput, [])
            else Live(m, c).sent != []
  {
    hide Live, ChainGate, SendAndSeal, LoadInputs, LeakFree, SomeValueFound, Genuine, Seats.Resolve;
    LiveMeans(m, c);
    LeakFreeIs(m.p, inputs);
    ChainGateIs(m, c.chain, |fs| + 4);
    LaterGatesInOrder(m, c, fs, inputs);
    GateSafety(m, c);
  }

  /** 2 exactly for seats that do not resolve, and otherwise 0 or 1; 1 for every other refusal. */
  lemma ExitCodeIs(m: Machine, c: Command)
    ensures ExitCode(Live(m, c).outcome) == 2 <==> Live(m, c).outcome.SeatsRefused?
    ensures ExitCode(Live(m, c).outcome) in {0, 1, 2}
    ensures Live(m, c).sent == [] && !Live(m, c).outcome.SeatsRefused? ==> ExitCode(Live(m, c).outcome) == 1
  {
    hide Live, Settled;
    if Live(m, c).sent == [] {
      GateSafety(m, c);
    }
  }
}
