/** Runs chained on one another through their receipt files. */
module RunChain {
  import opened Wrappers
  import opened JsonText
  import opened Json
  import opened Platform
  import opened Receipts
  import opened Producer
  import opened LiveRun
  import RunFacts
  import Agreement
  import Chain
  import Verify

  datatype Step = Step(m: Machine, c: Command)

  /** The read at which a run looks at the receipt it chains onto. */
  function ChainTick(s: Step): nat {
    match FragmentsOf(s.m, s.c)
    case None => 0
    case Some(fs) => |fs| + 4
  }

  predicate Finishes(s: Step) {
    Live(s.m, s.c).outcome.Finished?
  }

  function ReceiptAt(s: Step): Dict
    requires Finishes(s)
  {
    Live(s.m, s.c).outcome.receipt
  }

  /** The second run is told to chain, and finds the file the first run wrote. */
  predicate ChainsOnto(first: Step, second: Step)
    requires Finishes(first)
  {
    && second.c.chain.Some? && second.c.chain.value != ""
    && second.m.disk(ChainTick(second), second.c.chain.value) == Some(FileText(Obj(ReceiptAt(first))))
  }

  /** A file written by a run and accepted by the ring passes the chain gate with its own hash. */
  lemma WrittenFilePassesGate(m: Machine, chain: Option<string>, tick: nat, receipt: Dict)
    requires chain.Some? && chain.value != "" && m.disk(tick, chain.value) == Some(FileText(Obj(receipt)))
    requires RingAccepts(m.p, m.ring, receipt) && Read(receipt).Some?
    ensures ChainGate(m, chain, tick) == Pass(Some(Read(receipt).value.hash))
  {
    hide RingAccepts, Read, LoadText, Write;
    WrittenReadsBack(Strict, Indented, Obj(receipt));
  }

  lemma SealedPrev(m: Machine, inputs: Inputs, seats: seq<Seat>, prev: Option<string>)
    requires SeatsFit(inputs, seats)
    ensures var receipt := ReceiptOf(m, inputs, seats, prev);
            "prev_receipt_hash" in receipt && receipt["prev_receipt_hash"] == MaybeStr(prev)
  {
    hide ReceiptHash, Unhashed, BodyDict, EventItems, ViewOf;
    var replies := Responses(m.reply, seats, |seats|);
    var shares := SeatShares(m.p, inputs, seats);
    var body := Body(m.p, ContextOf(m), inputs, seats, replies, prev);
    Agreement.BodyShows(m.p, ContextOf(m), inputs, EventItems(Events(m.p, inputs, seats, replies)),
                        ExposureItems(m.p, seats, shares), ViewOf(shares),
                        !SawFull(inputs.original, inputs.payloads), prev);
    Agreement.SealsAsSigned(m.p, m.key, LOCAL_KEY_ID, body);
    var hash := ReceiptHash(m.p, Unhashed(body, LOCAL_KEY_ID));
    Agreement.SealKeeps(body, LOCAL_KEY_ID, hash, SignatureDict(m.p, m.key, hash), "prev_receipt_hash");
  }

  /** A finished run names, as its previous hash, what its chain gate let through. */
  lemma FinishedPrev(s: Step)
    requires Finishes(s)
    ensures ChainGate(s.m, s.c.chain, ChainTick(s)).Pass?
    ensures "prev_receipt_hash" in ReceiptAt(s)
    ensures ReceiptAt(s)["prev_receipt_hash"] == MaybeStr(ChainGate(s.m, s.c.chain, ChainTick(s)).prev)
    ensures RingAccepts(s.m.p, s.m.ring, ReceiptAt(s))
  {
    hide Live, ChainGate, RingAccepts, ReceiptOf, LoadInputs, LeakFree, SendAndSeal, Unique, SeatsFit;
    var plan := RunFacts.PlanOf(s.m, s.c);
    RunFacts.SealedOutcome(s.m, plan.inputs, plan.seats, plan.prev);
    SealedPrev(s.m, plan.inputs, plan.seats, plan.prev);
  }

  /** One machine's receipt, written to a file, is what the next run links to. */
  lemma StepLinks(first: Step, second: Step)
    requires Finishes(first) && Finishes(second) && ChainsOnto(first, second)
    requires Accepted(first.m.p, Some(first.m.p.publicOf(first.m.key)), ReceiptAt(first))
    requires RingAccepts(second.m.p, second.m.ring, ReceiptAt(first))
    ensures Chain.Linked(ReceiptAt(first), ReceiptAt(second))
  {
    hide Live, ChainGate, RingAccepts, Accepted, ReceiptAt, Read, ReceiptHash, Finishes;
    var receipt := ReceiptAt(first);
    var pub := Some(first.m.p.publicOf(first.m.key));
    Verify.AcceptedMeans(first.m.p, pub, receipt);
    Chain.RequiredHashes(first.m.p, pub, receipt);
    Chain.ReadHash(receipt);
    WrittenFilePassesGate(second.m, second.c.chain, ChainTick(second), receipt);
    FinishedPrev(second);
  }

  /** Runs of one installation: the same library, key and keyring. */
  ghost predicate OneInstallation(p: Platform, key: PrivateKey, steps: seq<Step>) {
    forall i :: 0 <= i < |steps| ==>
      steps[i].m.p == p && steps[i].m.key == key && RunFacts.OwnKey(steps[i].m) && Finishes(steps[i])
  }

  ghost function ReceiptsOf(p: Platform, key: PrivateKey, steps: seq<Step>): (r: seq<Dict>)
    requires OneInstallation(p, key, steps)
    ensures |r| == |steps| && forall i :: 0 <= i < |r| ==> r[i] == ReceiptAt(steps[i])
  {
    seq(|steps|, i requires 0 <= i < |steps| => ReceiptAt(steps[i]))
  }

  lemma OwnReceiptRingAccepted(first: Step, second: Step)
    requires first.m.p == second.m.p && first.m.key == second.m.key
    requires RunFacts.OwnKey(first.m) && RunFacts.OwnKey(second.m) && Finishes(first)
    ensures RingAccepts(second.m.p, second.m.ring, ReceiptAt(first))
  {
    hide Live, SendAndSeal, LoadInputs, LeakFree, ChainGate, Accepted, Body, Signed, Laws;
    var plan := RunFacts.PlanOf(first.m, first.c);
    RunFacts.SealedOutcome(first.m, plan.inputs, plan.seats, plan.prev);
    var replies := Responses(first.m.reply, plan.seats, |plan.seats|);
    RunFacts.SignedShowsKeyId(first.m.p, first.m.key, LOCAL_KEY_ID,
                              Body(first.m.p, ContextOf(first.m), plan.inputs, plan.seats, replies, plan.prev));
  }

  /**
    Any number of runs, each chained on the file the one before it wrote, give an accepted chain
    under the installation's key.
   */
  lemma RunsFormAcceptedChain(p: Platform, key: PrivateKey, steps: seq<Step>)
    requires Laws(p) && OneInstallation(p, key, steps)
    requires forall i :: 0 < i < |steps| ==> ChainsOnto(steps[i - 1], steps[i])
    ensures Chain.ChainAccepted(p, Some(p.publicOf(key)), ReceiptsOf(p, key, steps))
  {
    hide ChainsOnto, ReceiptAt, Accepted, Chain.Linked, Laws, RingAccepts, RunFacts.OwnKey;
    var rs := ReceiptsOf(p, key, steps);
    var pub := Some(p.publicOf(key));
    forall i | 0 <= i < |rs| ensures Accepted(p, pub, rs[i]) {
      StepAccepted(p, key, steps[i]);
    }
    forall i | 0 < i < |rs| ensures Chain.Linked(rs[i - 1], rs[i]) {
      assert ChainsOnto(steps[i - 1], steps[i]);
      OwnReceiptRingAccepted(steps[i - 1], steps[i]);
      assert Accepted(p, pub, rs[i - 1]);
      StepLinks(steps[i - 1], steps[i]);
    }
  }

  lemma StepAccepted(p: Platform, key: PrivateKey, s: Step)
    requires Laws(p) && s.m.p == p && s.m.key == key && RunFacts.OwnKey(s.m) && Finishes(s)
    ensures Accepted(p, Some(p.publicOf(key)), ReceiptAt(s))
  {
    hide Accepted, Laws, Live, RunFacts.OwnKey;
    RunFacts.RunsVerify(s.m, s.c);
  }
}
