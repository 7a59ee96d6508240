/**
  Concrete runs: one meets every hypothesis of the theorems about runs and finishes; two send
  everything and leave no receipt.
 */
module RunWitness {
  import opened Wrappers
  import opened JsonText
  import opened Json
  import opened Platform
  import opened Receipts
  import opened Replace
  import opened Producer
  import opened LiveRun
  import opened RunFacts
  import Seats
  import Witness

  /** Empty files but for the local-only text; no fragments declared; every transport fails. */
  function Sample(local: string, task: Option<Json>): Machine {
    Machine(Witness.Model(), 0,
      (id: string) => Some(0),
      (k: Kind, fid: string) => Some(("host", "model")),
      (tick: nat, path: string) => Some(if path == "local" then local else ""),
      (path: string) => true,
      (text: string) => Some([]),
      (text: string) => Some(task),
      (text: string) => Some(map["a" := LocalValue(None, None)]),
      true, true, true,
      (i: nat) => TransportFailed,
      0, 0, Null, Null)
  }

  const SEND: Command := Command("original", "local", "plan", [], None, true)

  /** The local-only text loads, and there is nothing in it to look for. */
  predicate Quiet(m: Machine, text: string) {
    LoadLocals(m, text).Some? &&
    forall k :: k in LoadLocals(m, text).value ==> LoadLocals(m, text).value[k].looked.None?
  }

  lemma SampleLoads(local: string, task: Option<Json>)
    requires Quiet(Sample(local, task), local)
    ensures var m := Sample(local, task);
            LoadInputs(m, SEND, LEGACY).Some? &&
            var inputs := LoadInputs(m, SEND, LEGACY).value;
            inputs.original == Normalize("") && inputs.taskType == task &&
            Some(inputs.localOnly) == LoadLocals(m, local)
  {
    hide Normalize, LoadLocals, Witness.Model;
    var m := Sample(local, task);
    forall i | 0 <= i < |LEGACY| ensures TextReader(m.disk)(2 + i, LEGACY[i].path).Some? {
      ReaderReads(m.disk, 2 + i, LEGACY[i].path);
    }
  }

  lemma LegacyUnique()
    ensures Unique(Ids(LEGACY))
  {
    FragmentIdsGood((path: string) => true, []);
  }

  lemma SampleReads(local: string, task: Option<Json>, tick: nat, i: nat)
    requires i < |LEGACY|
    ensures ReadFile(Sample(local, task).disk, tick, LEGACY[i].path) == Some(Normalize(""))
  {
    hide Normalize, Witness.Model;
  }

  lemma SampleAccounts(local: string, task: Option<Json>, inputs: Inputs)
    requires Quiet(Sample(local, task), local) && LoadInputs(Sample(local, task), SEND, LEGACY) == Some(inputs)
    ensures !UnderReports(inputs.original, inputs.payloads)
  {
    hide Sample, Normalize, LoadInputs, Payloads, ReadFile, Unique, Quiet;
    var m := Sample(local, task);
    LegacyUnique();
    SampleLoads(local, task);
    LoadedPayloads(m, SEND, LEGACY);
    forall f | f in inputs.payloads ensures inputs.payloads[f] == Normalize("") {
      var i :| 0 <= i < |LEGACY| && Ids(LEGACY)[i] == f;
      BufferIsOneRead(m.disk, LEGACY, inputs.payloads, i);
      SampleReads(local, task, 2 + i, i);
    }
  }

  lemma SampleSeats(local: string, task: Option<Json>, inputs: Inputs)
    requires Unique(Ids(LEGACY)) && forall f :: f in inputs.payloads <==> f in Ids(LEGACY)
    ensures var resolved := Seats.Resolve(Sample(local, task).config, Ids(LEGACY), SEND.specs);
            && resolved.Seated? && SeatsFit(inputs, resolved.seats) && |resolved.seats| == |LEGACY|
            && forall i :: 0 <= i < |LEGACY| ==> resolved.seats[i].fid == LEGACY[i].id
  {
    hide Witness.Model, SeatsFit, Unique;
    var m := Sample(local, task);
    assert Seats.Resolve(m.config, Ids(LEGACY), []).Seated?;
    hide Seats.Resolve, Sample;
    Seats.ResolvedDistinct(m.config, Ids(LEGACY), []);
    ResolvedFit(m.config, LEGACY, [], inputs);
  }

  lemma SampleGates(local: string, task: Option<Json>, inputs: Inputs)
    requires forall k :: k in inputs.localOnly ==> inputs.localOnly[k].looked.None?
    ensures var m := Sample(local, task);
            && FragmentsOf(m, SEND) == Some(LEGACY) && m.outDir
            && LeakFree(m.p, inputs) && ChainGate(m, SEND.chain, |LEGACY| + 4) == Pass(None)
  {
    hide Witness.Model;
  }

  /** A sample run passes every gate. */
  lemma SampleSettled(local: string, task: Option<Json>) returns (plan: Plan)
    requires Quiet(Sample(local, task), local)
    ensures var m := Sample(local, task);
            Settled(m, SEND, plan) && |plan.seats| == 2 &&
            plan.inputs.taskType == task && Some(plan.inputs.localOnly) == LoadLocals(m, local)
  {
    hide Sample, LoadInputs, UnderReports, Seats.Resolve, SeatsFit, Unique, FragmentsOf, LeakFree, ChainGate, Ids,
      LoadLocals;
    var m := Sample(local, task);
    SampleLoads(local, task);
    var inputs := LoadInputs(m, SEND, LEGACY).value;
    SampleGates(local, task, inputs);
    SampleAccounts(local, task, inputs);
    LegacyUnique();
    LoadedPayloads(m, SEND, LEGACY);
    SampleSeats(local, task, inputs);
    plan := Plan(LEGACY, inputs, Seats.Resolve(m.config, Ids(LEGACY), SEND.specs).seats, None);
  }

  lemma NoLocals(task: Option<Json>)
    ensures var text := Write(Compact, Obj(map[]));
            LoadLocals(Sample(text, task), text) == Some(map[])
  {
    hide Write, LoadText, Witness.Model;
    WrittenReadsBack(LastWins, Compact, Obj(map[]));
    assert LocalsOf(Witness.Model(), map[]) == map[];
  }

  lemma NoExceptions(local: string, task: Option<Json>, n: nat)
    ensures !Interrupted(Sample(local, task).reply, n)
  {
    hide Witness.Model;
  }

  /** Some run under the laws finishes, so some receipt is accepted. */
  lemma FinishedRunExists() returns (m: Machine, c: Command)
    ensures Laws(m.p) && OwnKey(m) && Live(m, c).outcome.Finished?
    ensures Accepted(m.p, Some(m.p.publicOf(m.key)), Live(m, c).outcome.receipt)
  {
    hide Live, Settled, SendAndSeal, Accepted, Laws, RingAccepts, ReceiptOf, LoadLocals, Write;
    var local, task := Write(Compact, Obj(map[])), Some(Null);
    m, c := Sample(local, task), SEND;
    Witness.LawsSatisfiable();
    NoLocals(task);
    var plan := SampleSettled(local, task);
    NoExceptions(local, task, |plan.seats|);
    SampleFinishes(m, c, plan);
  }

  lemma SampleFinishes(m: Machine, c: Command, plan: Plan)
    requires Laws(m.p) && OwnKey(m) && Settled(m, c, plan) && CanSeal(m, plan.inputs) && m.combined
    requires !Interrupted(m.reply, |plan.seats|)
    ensures Live(m, c).outcome.Finished?
    ensures Accepted(m.p, Some(m.p.publicOf(m.key)), Live(m, c).outcome.receipt)
  {
    hide Live, Settled, SendAndSeal, Accepted, Laws, OwnKey, RingAccepts, ReceiptOf, CanSeal, Interrupted;
    PlanFits(m, c, plan);
    SettledSends(m, c, plan);
    SealedOutcome(m, plan.inputs, plan.seats, plan.prev);
    RunsVerify(m, c);
  }

  // ---------- everything sent, nothing recorded ----------

  /** A string holding the escape of a lone surrogate. */
  const BROKEN: string := "{\"a\":\"\\ud800\"}"

  lemma LoneSurrogateStops(s: string)
    requires |s| >= 6 && s[0] == '\\' && s[1] == 'u' && s[2] == 'd' && s[3] == '8' && s[4] == '0' && s[5] == '0'
    requires |s| >= 7 ==> s[6] != '\\'
    ensures ParseStringBody(s).None?
  {
    var t := s[1..];
    var h := t[1..];
    assert h[0] == 'd' && h[1] == '8' && h[2] == '0' && h[3] == '0';
    assert HexValue('d') == Some(13) && HexValue('8') == Some(8) && HexValue('0') == Some(0);
    assert Hex4(h) == Some(0xD800);
    assert ParseEscape(t).None?;
  }

  lemma StringStops(s: string)
    requires s != "" && s[0] == '"' && ParseStringBody(s[1..]).None?
    ensures ParseValue(s).None?
  {
  }

  lemma MemberStops(s: string, name: string, c: string)
    requires s != "" && s[0] == '"' && ParseStringBody(s[1..]) == Some((name, c))
    requires c != "" && c[0] == ':' && c[1..] != "" && !IsSpace(c[1]) && ParseValue(c[1..]).None?
    ensures ParseMembers(s).None?
  {
    hide ParseStringBody, ParseValue;
    assert SkipSpace(c) == c && SkipSpace(c[1..]) == c[1..];
  }

  lemma ObjectStops(s: string)
    requires |s| > 1 && s[0] == '{' && !IsSpace(s[1]) && s[1] != '}' && ParseMembers(s[1..]).None?
    ensures LoadText(LastWins, s) == None
  {
    assert SkipSpace(s) == s && SkipSpace(s[1..]) == s[1..];
    assert s[1..][0] == s[1];
    assert ParseValue(s).None?;
    assert ParseText(s).None?;
  }

  lemma ShortName(c: string)
    ensures ParseStringBody("a\"" + c) == Some(("a", c))
  {
    var s := "a\"" + c;
    assert s[1..] == "\"" + c && s[1..][1..] == c;
    assert ParseStringBody(s[1..]) == Some(("", c));
    assert ParseStringBody(s) == Prepend('a', Some(("", c)));
    assert ['a'] + "" == "a";
  }

  /** This reader refuses the text; Python's keeps the surrogate. */
  lemma BrokenIsRefused()
    ensures LoadText(LastWins, BROKEN) == None
  {
    hide ParseStringBody, ParseValue, ParseMembers, LoadText;
    var s := BROKEN;
    LoneSurrogateStops(s[6..]);
    assert s[5..][1..] == s[6..];
    StringStops(s[5..]);
    assert s[2..] == "a\"" + s[4..];
    ShortName(s[4..]);
    assert s[1..][1..] == s[2..] && s[4..][1..] == s[5..];
    MemberStops(s[1..], "a", s[4..]);
    ObjectStops(s);
  }

  /** Every gate passed and no exception but transport errors, yet something cannot be written. */
  lemma SentUnrecorded(local: string, task: Option<Json>) returns (plan: Plan)
    requires Quiet(Sample(local, task), local)
    requires task.None? || exists k :: k in LoadLocals(Sample(local, task), local).value &&
                                       LoadLocals(Sample(local, task), local).value[k].hashed.None?
    ensures var m := Sample(local, task);
            Laws(m.p) && OwnKey(m) && Settled(m, SEND, plan) && !Interrupted(m.reply, |plan.seats|) &&
            |Live(m, SEND).sent| == 2 && ReceiptIn(Live(m, SEND).outcome) == None
  {
    hide Live, Settled, Laws, LoadLocals, Interrupted, Sample;
    var m := Sample(local, task);
    SampleIsLawful(local, task);
    plan := SampleSettled(local, task);
    NoExceptions(local, task, |plan.seats|);
    ReceiptIff(m, SEND, plan);
  }

  lemma SampleIsLawful(local: string, task: Option<Json>)
    ensures Laws(Sample(local, task).p) && OwnKey(Sample(local, task))
  {
    hide Laws;
    Witness.LawsSatisfiable();
  }

  lemma BrokenIsLoose()
    requires LoadText(LastWins, BROKEN) == None
    ensures LoadLocals(Sample(BROKEN, Some(Null)), BROKEN) == Some(map["a" := LocalValue(None, None)])
  {
    hide LoadText, Witness.Model;
  }

  /** A local-only string that cannot be encoded: two payloads are sent, and there is no receipt. */
  lemma UnencodableRun() returns (plan: Plan)
    ensures var m := Sample(BROKEN, Some(Null));
            Laws(m.p) && OwnKey(m) && Settled(m, SEND, plan) && !Interrupted(m.reply, |plan.seats|) &&
            |Live(m, SEND).sent| == 2 && ReceiptIn(Live(m, SEND).outcome) == None
  {
    hide Live, Settled, Laws, Interrupted, LoadLocals, Witness.Model;
    var m := Sample(BROKEN, Some(Null));
    BrokenIsRefused();
    BrokenIsLoose();
    assert "a" in LoadLocals(m, BROKEN).value && LoadLocals(m, BROKEN).value["a"].hashed.None?;
    plan := SentUnrecorded(BROKEN, Some(Null));
  }

  /** A masking plan without `task_type`: the same. */
  lemma UntypedRun() returns (plan: Plan)
    ensures var m := Sample(Write(Compact, Obj(map[])), None);
            Laws(m.p) && OwnKey(m) && Settled(m, SEND, plan) && !Interrupted(m.reply, |plan.seats|) &&
            |Live(m, SEND).sent| == 2 && ReceiptIn(Live(m, SEND).outcome) == None
  {
    hide Live, Settled, Laws, Interrupted, LoadLocals, Witness.Model, Write;
    NoLocals(None);
    plan := SentUnrecorded(Write(Compact, Obj(map[])), None);
  }
}
