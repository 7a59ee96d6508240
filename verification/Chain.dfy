/** Hash-linked receipts: the chain walk, how chains compose, and how a last hash binds a history. */
module Chain {
  import opened Wrappers
  import opened Json
  import opened Platform
  import opened Receipts
  import Verify
  import Utf8

  /** `next["prev_receipt_hash"] == prev["receipt_hash"]` */
  predicate Linked(prev: Dict, next: Dict) {
    "receipt_hash" in prev && "prev_receipt_hash" in next && next["prev_receipt_hash"] == prev["receipt_hash"]
  }

  /** Every receipt passes, and every receipt after the first names the one before it. */
  predicate Chained(ok: Dict -> bool, ms: seq<Dict>) {
    (forall i :: 0 <= i < |ms| ==> ok(ms[i])) && AllLinked(ms)
  }

  /** The first receipt may name anything. */
  predicate AllLinked(ms: seq<Dict>) {
    forall i :: 0 < i < |ms| ==> Linked(ms[i - 1], ms[i])
  }

  function Checker(p: Platform, pub: Option<PublicKey>): (ok: Dict -> bool)
    ensures forall m :: ok(m) == Accepted(p, pub, m)
  {
    (m: Dict) => Accepted(p, pub, m)
  }

  predicate ChainAccepted(p: Platform, pub: Option<PublicKey>, ms: seq<Dict>) {
    Chained(Checker(p, pub), ms)
  }

  datatype ChainVerdict = ChainValid | BadReceipt(index: nat, reason: Reason) | Broken(at: nat)

  /** `verify_chain`, with its running `prev_hash`.  The verdict points at the first fault. */
  method VerifyChain(p: Platform, pub: Option<PublicKey>, ms: seq<Dict>) returns (v: ChainVerdict)
    ensures v.ChainValid? <==> ChainAccepted(p, pub, ms)
    ensures v.BadReceipt? ==>
              v.index < |ms| && ChainAccepted(p, pub, ms[..v.index]) &&
              VerifyReceipt(p, pub, ms[v.index]) == Invalid(v.reason)
    ensures v.Broken? ==>
              0 < v.at < |ms| && ChainAccepted(p, pub, ms[..v.at]) && Accepted(p, pub, ms[v.at]) &&
              !Linked(ms[v.at - 1], ms[v.at])
  {
    hide VerifyReceipt;
    var prevHash := Null;
    for i := 0 to |ms|
      invariant ChainAccepted(p, pub, ms[..i])
      invariant i > 0 ==> "receipt_hash" in ms[i - 1] && prevHash == ms[i - 1]["receipt_hash"]
    {
      var receipt := ms[i];
      var verdict := VerifyReceipt(p, pub, receipt);
      if verdict != Valid {
        return BadReceipt(i, verdict.reason);
      }
      RequiredHashes(p, pub, receipt);
      if i > 0 && receipt["prev_receipt_hash"] != prevHash {
        return Broken(i);
      }
      prevHash := receipt["receipt_hash"];
      OneMore(Checker(p, pub), ms, i);
    }
    assert ms[..|ms|] == ms;
    v := ChainValid;
  }

  lemma RequiredHashes(p: Platform, pub: Option<PublicKey>, m: Dict)
    requires Accepted(p, pub, m)
    ensures "receipt_hash" in m && "prev_receipt_hash" in m
  {
    hide Read, ShapeVerdict, DomainVerdict, SignatureVerdict, ReceiptHash;
    assert REQUIRED[8] == "prev_receipt_hash" && REQUIRED[9] == "receipt_hash";
  }

  lemma OneMore(ok: Dict -> bool, ms: seq<Dict>, i: nat)
    requires i < |ms| && Chained(ok, ms[..i]) && ok(ms[i])
    requires i > 0 ==> Linked(ms[i - 1], ms[i])
    ensures Chained(ok, ms[..i + 1])
  {
    ChainsJoin(ok, ms[..i], [ms[i]]);
    assert ms[..i + 1] == ms[..i] + [ms[i]];
  }

  // ---------- composition ----------

  lemma ChainPart(ok: Dict -> bool, ms: seq<Dict>, lo: nat, hi: nat)
    requires lo <= hi <= |ms| && Chained(ok, ms)
    ensures Chained(ok, ms[lo..hi])
  {
    var c := ms[lo..hi];
    forall j | 0 < j < |c| ensures Linked(c[j - 1], c[j]) {
      assert Linked(ms[lo + j - 1], ms[lo + j]);
    }
  }

  lemma ChainsJoin(ok: Dict -> bool, a: seq<Dict>, b: seq<Dict>)
    ensures Chained(ok, a + b) <==>
            Chained(ok, a) && Chained(ok, b) && (a != [] && b != [] ==> Linked(a[|a| - 1], b[0]))
  {
    var c := a + b;
    if Chained(ok, c) {
      ChainPart(ok, c, 0, |a|);
      ChainPart(ok, c, |a|, |c|);
      assert c[0..|a|] == a && c[|a|..|c|] == b;
      assert a != [] && b != [] ==> Linked(c[|a| - 1], c[|a|]);
    }
    if Chained(ok, a) && Chained(ok, b) && (a != [] && b != [] ==> Linked(a[|a| - 1], b[0])) {
      forall i | 0 <= i < |c| ensures ok(c[i]) {
        assert c[i] == if i < |a| then a[i] else b[i - |a|];
      }
      forall i | 0 < i < |c| ensures Linked(c[i - 1], c[i]) {
        if i < |a| {
          assert Linked(a[i - 1], a[i]);
        } else if i > |a| {
          assert Linked(b[i - |a| - 1], b[i - |a|]);
        }
      }
    }
  }

  /** Every contiguous part of an accepted chain is accepted. */
  lemma PartAccepted(p: Platform, pub: Option<PublicKey>, ms: seq<Dict>, lo: nat, hi: nat)
    requires lo <= hi <= |ms| && ChainAccepted(p, pub, ms)
    ensures ChainAccepted(p, pub, ms[lo..hi])
  {
    ChainPart(Checker(p, pub), ms, lo, hi);
  }

  /** Two chains join into an accepted chain exactly when both are accepted and the seam is linked. */
  lemma JoinAccepted(p: Platform, pub: Option<PublicKey>, a: seq<Dict>, b: seq<Dict>)
    ensures ChainAccepted(p, pub, a + b) <==>
            ChainAccepted(p, pub, a) && ChainAccepted(p, pub, b) &&
            (a != [] && b != [] ==> Linked(a[|a| - 1], b[0]))
  {
    ChainsJoin(Checker(p, pub), a, b);
  }

  // ---------- history binding ----------

  /** Two different byte strings with one digest. */
  predicate Collision(p: Platform, x: Bytes, y: Bytes) {
    x != y && p.sha256(x) == p.sha256(y)
  }

  function Unsigned(m: Dict): Dict {
    m - {"signature"}
  }

  /** The receipt records the hash of its own body. */
  predicate RecordsHash(p: Platform, m: Dict) {
    "receipt_hash" in m && m["receipt_hash"] == Str(ReceiptHash(p, m))
  }

  lemma AcceptedRecordsHash(p: Platform, pub: Option<PublicKey>, m: Dict)
    requires Accepted(p, pub, m)
    ensures RecordsHash(p, m)
  {
    Verify.AcceptedMeans(p, pub, m);
    RequiredHashes(p, pub, m);
    ReadHash(m);
  }

  lemma ReadHash(m: Dict)
    requires Read(m).Some? && "receipt_hash" in m
    ensures m["receipt_hash"] == Str(Read(m).value.hash)
  {
    assert PlainText(m, "receipt_hash").Some?;
  }

  /** Receipts with one recorded hash are the same but for their signatures, or collide. */
  lemma SameHashSameReceipt(p: Platform, a: Dict, b: Dict)
    requires RecordsHash(p, a) && RecordsHash(p, b) && a["receipt_hash"] == b["receipt_hash"]
    ensures Unsigned(a) == Unsigned(b) || Collision(p, HashedBytes(a), HashedBytes(b))
  {
    if HashedBytes(a) == HashedBytes(b) {
      CanonicalInjective(Obj(BodyOf(a)), Obj(BodyOf(b)));
      assert BodyOf(a) == BodyOf(b);
      forall k ensures k in Unsigned(a) <==> k in Unsigned(b) {
        assert k in BodyOf(a) <==> k in BodyOf(b);
      }
      forall k | k in Unsigned(a) ensures Unsigned(a)[k] == Unsigned(b)[k] {
        if k != "receipt_hash" {
          assert k in BodyOf(a) && BodyOf(a)[k] == BodyOf(b)[k];
        }
      }
    }
  }

  /** The two chains, counted back from their ends, agree on the receipt `j` places before the last. */
  predicate AgreeAt(xs: seq<Dict>, ys: seq<Dict>, j: nat)
    requires j < |xs| && j < |ys|
  {
    Unsigned(xs[|xs| - 1 - j]) == Unsigned(ys[|ys| - 1 - j])
  }

  predicate CollideAt(p: Platform, xs: seq<Dict>, ys: seq<Dict>, j: nat)
    requires j < |xs| && j < |ys|
  {
    Collision(p, HashedBytes(xs[|xs| - 1 - j]), HashedBytes(ys[|ys| - 1 - j]))
  }

  predicate AllRecordHashes(p: Platform, ms: seq<Dict>) {
    forall i :: 0 <= i < |ms| ==> RecordsHash(p, ms[i])
  }

  /** Walking back from equal last hashes: without a collision on the way, agreement never stops. */
  lemma {:induction false} AgreesBack(p: Platform, xs: seq<Dict>, ys: seq<Dict>, j: nat)
    requires j < |xs| && j < |ys| && AllRecordHashes(p, xs) && AllRecordHashes(p, ys)
    requires AllLinked(xs) && AllLinked(ys)
    requires xs[|xs| - 1]["receipt_hash"] == ys[|ys| - 1]["receipt_hash"]
    requires forall i: nat :: i <= j ==> !CollideAt(p, xs, ys, i)
    ensures AgreeAt(xs, ys, j)
  {
    hide ReceiptHash, HashedBytes;
    var a, b := xs[|xs| - 1 - j], ys[|ys| - 1 - j];
    if j > 0 {
      AgreesBack(p, xs, ys, j - 1);
      PreviousHashesAgree(a, xs[|xs| - j], b, ys[|ys| - j]);
    }
    SameHashSameReceipt(p, a, b);
    assert !CollideAt(p, xs, ys, j);
  }

  /**
    The last hash binds the whole history: two accepted chains whose last receipts record one
    hash agree, as far back as both reach, in every member but the signature, or two of their
    receipts at one place are a hash collision.  The chains may differ in length, and may have
    been accepted under different keys.
   */
  lemma HistoryBinding(p: Platform, pubA: Option<PublicKey>, xs: seq<Dict>,
                       pubB: Option<PublicKey>, ys: seq<Dict>)
    requires xs != [] && ys != [] && ChainAccepted(p, pubA, xs) && ChainAccepted(p, pubB, ys)
    requires "receipt_hash" in xs[|xs| - 1] && "receipt_hash" in ys[|ys| - 1]
    requires xs[|xs| - 1]["receipt_hash"] == ys[|ys| - 1]["receipt_hash"]
    ensures (forall j: nat :: j < |xs| && j < |ys| ==> AgreeAt(xs, ys, j)) ||
            (exists j: nat :: j < |xs| && j < |ys| && CollideAt(p, xs, ys, j))
  {
    ChainRecordsHashes(p, pubA, xs);
    ChainRecordsHashes(p, pubB, ys);
    if !exists j: nat :: j < |xs| && j < |ys| && CollideAt(p, xs, ys, j) {
      forall j: nat | j < |xs| && j < |ys| ensures AgreeAt(xs, ys, j) {
        AgreesBack(p, xs, ys, j);
      }
    }
  }

  lemma ChainRecordsHashes(p: Platform, pub: Option<PublicKey>, ms: seq<Dict>)
    requires ChainAccepted(p, pub, ms)
    ensures AllRecordHashes(p, ms) && AllLinked(ms)
  {
    forall i | 0 <= i < |ms| ensures RecordsHash(p, ms[i]) {
      AcceptedRecordsHash(p, pub, ms[i]);
    }
  }

  lemma PreviousHashesAgree(a: Dict, nextA: Dict, b: Dict, nextB: Dict)
    requires Linked(a, nextA) && Linked(b, nextB) && Unsigned(nextA) == Unsigned(nextB)
    ensures a["receipt_hash"] == b["receipt_hash"]
  {
    var k := "prev_receipt_hash";
    assert k in Unsigned(nextA) && Unsigned(nextA)[k] == nextA[k] && Unsigned(nextB)[k] == nextB[k];
  }
}
