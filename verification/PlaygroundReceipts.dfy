/** The second canonicalizer on the receipts of live runs. */
module PlaygroundReceipts {
  import opened Wrappers
  import opened Text
  import opened JsonText
  import opened Json
  import opened Platform
  import opened Receipts
  import opened Producer
  import opened Playground
  import Agreement

  lemma Kept(body: Dict, keyId: string, k: string)
    requires k !in UNHASHED && k != "signing_key_id"
    ensures k in body <==> k in Unhashed(body, keyId)
    ensures k in body ==> Unhashed(body, keyId)[k] == body[k]
  {
  }

  lemma SignedExposures(p: Platform, key: PrivateKey, keyId: string, c: Context, inputs: Inputs, seats: seq<Seat>,
                        replies: Replies, prev: Option<string>)
    requires SeatsFit(inputs, seats)
    ensures var m := BodyOf(Signed(p, key, keyId, Body(p, c, inputs, seats, replies, prev)));
            "single_provider_exposure" in m &&
            m["single_provider_exposure"] == Arr(ExposureItems(p, seats, SeatShares(p, inputs, seats)))
  {
    hide ReceiptHash, BodyDict, EventItems, ExposureItems, ViewOf, Signed, Unhashed, SeatShares, Agreement.ShowsFigures;
    var shares := SeatShares(p, inputs, seats);
    var body := Body(p, c, inputs, seats, replies, prev);
    SignedBody(p, key, keyId, body);
    Kept(body, keyId, "single_provider_exposure");
    Agreement.BodyShows(p, c, inputs, EventItems(Events(p, inputs, seats, replies)), ExposureItems(p, seats, shares),
                        ViewOf(shares), !SawFull(inputs.original, inputs.payloads), prev);
  }

  lemma ListedNumber(num: NumberText, m: Dict, k: string, items: seq<Json>, i: nat, field: string)
    requires k in m && m[k] == Arr(items) && i < |items| && items[i].Obj? && field in items[i].m
    requires NumbersAlike(num, Obj(m))
    ensures NumbersAlike(num, items[i].m[field])
  {
    assert NumbersAlike(num, m[k]);
    assert NumbersAlike(num, items[i]);
  }

  /**
    The playground hashes another text than the verifier for every receipt of a run with a seat
    ratio that JavaScript prints differently.
   */
  lemma UnlikeRatioRefused(num: NumberText, p: Platform, key: PrivateKey, keyId: string, c: Context, inputs: Inputs,
                           seats: seq<Seat>, replies: Replies, prev: Option<string>, i: nat)
    requires SeatsFit(inputs, seats) && i < |seats|
    requires var x := FloatOf(p, SeatShares(p, inputs, seats)[i].ratio); x.Float? && num(x) != Some(x.lexeme)
    ensures var m := Signed(p, key, keyId, Body(p, c, inputs, seats, replies, prev));
            Canonical(num, Obj(StrippedBody(m))) != Write(Compact, Obj(BodyOf(m)))
  {
    hide Canonical, Write, Signed, Body, NoCrossing;
    var m := Signed(p, key, keyId, Body(p, c, inputs, seats, replies, prev));
    var items := ExposureItems(p, seats, SeatShares(p, inputs, seats));
    SignedExposures(p, key, keyId, c, inputs, seats, replies, prev);
    PlaygroundHashesSameTextIff(num, m);
    if NumbersAlike(num, Obj(BodyOf(m))) {
      ListedNumber(num, BodyOf(m), "single_provider_exposure", items, i, "exposure_ratio");
      assert false;
    }
  }
}
