/** The verifier's own volume evaluation over packed intents, and the solver's mirror of it. */
module VolumeCheck {
  import opened Common
  import opened Solutions
  import opened Clearing
  import Verifier

  datatype Sides = Sides(demand: Verifier.U256, supply: Verifier.U256)

  /** Record n's side of the book added to what came before it. */
  function AddRecord(packed: seq<Byte>, price: Verifier.U256, n: nat, v: Sides): Verifier.VerifyResult<Sides>
    requires STRIDE * n + STRIDE <= |packed|
  {
    var i :- Verifier.IntentAt(packed, n);
    if i.sellTokenIndex == 0 then
      var paid :- Verifier.Mul(i.sellAmount, WAD);
      var asked :- Verifier.Mul(i.minBuyAmount, price);
      if paid >= asked then
        var demand :- Verifier.Add(v.demand, i.minBuyAmount);
        Ok(v.(demand := demand))
      else Ok(v)
    else
      var asked :- Verifier.Mul(i.minBuyAmount, WAD);
      var paid :- Verifier.Mul(i.sellAmount, price);
      if asked <= paid then
        var supply :- Verifier.Add(v.supply, i.sellAmount);
        Ok(v.(supply := supply))
      else Ok(v)
  }

  /** Demand and supply over the first n records, or the first error. */
  function SidesOf(packed: seq<Byte>, price: Verifier.U256, n: nat): Verifier.VerifyResult<Sides>
    requires STRIDE * n <= |packed|
  {
    if n == 0 then Ok(Sides(0, 0))
    else
      var v :- SidesOf(packed, price, n - 1);
      AddRecord(packed, price, n - 1, v)
  }

  function Smaller(a: Verifier.U256, b: Verifier.U256): Verifier.U256 { if a < b then a else b }

  function VolumeOf(packed: seq<Byte>, price: Verifier.U256): Verifier.VerifyResult<Volume>
  {
    if |packed| % STRIDE != 0 then Err(Verifier.MalformedPackedIntents(|packed|))
    else
      var v :- SidesOf(packed, price, |packed| / STRIDE);
      Ok(Volume(v.demand, v.supply, Smaller(v.demand, v.supply)))
  }

  lemma {:induction false} ErrorSticks(packed: seq<Byte>, price: Verifier.U256, n: nat, m: nat)
    requires n <= m && STRIDE * m <= |packed|
    requires SidesOf(packed, price, n).Err?
    ensures SidesOf(packed, price, m) == SidesOf(packed, price, n)
  {
    if n < m { ErrorSticks(packed, price, n, m - 1); }
  }

  /** evaluate_volume: the loop over the records, leaving at the first error. */
  method EvaluatePacked(packed: seq<Byte>, price: Verifier.U256) returns (r: Verifier.VerifyResult<Volume>)
    ensures r == VolumeOf(packed, price)
  {
    if |packed| % STRIDE != 0 {
      return Err(Verifier.MalformedPackedIntents(|packed|));
    }
    var count := |packed| / STRIDE;
    var v := Sides(0, 0);
    for n := 0 to count
      invariant SidesOf(packed, price, n) == Ok(v)
    {
      var next := AddRecord(packed, price, n, v);
      if next.Err? {
        ErrorSticks(packed, price, n + 1, count);
        return Err(next.error);
      }
      v := next.value;
    }
    r := Ok(Volume(v.demand, v.supply, Smaller(v.demand, v.supply)));
  }

  // ----- the solver's mirror

  function PackedLeg(quote: Address): Intent -> Leg
  {
    (i: Intent) => Leg(i.sellToken == quote, i.sellAmount, i.minBuyAmount)
  }

  /** Both products of one comparison fit 256 bits. */
  predicate Comparable(l: Leg, price: nat)
  {
    if l.sellsQuote then l.sellAmount * WAD < Verifier.TWO_256 && l.minBuyAmount * price < Verifier.TWO_256
    else l.minBuyAmount * WAD < Verifier.TWO_256 && l.sellAmount * price < Verifier.TWO_256
  }

  /** Nothing the evaluation forms exceeds 256 bits. */
  predicate Representable(legs: seq<Leg>, price: nat)
  {
    && (forall l :: l in legs ==> Comparable(l, price))
    && VolumeAt(legs, price).demand < Verifier.TWO_256 && VolumeAt(legs, price).supply < Verifier.TWO_256
  }

  lemma VolumeStep(legs: seq<Leg>, l: Leg, price: nat)
    ensures VolumeAt(legs + [l], price).demand == VolumeAt(legs, price).demand + l.Demand(price)
    ensures VolumeAt(legs + [l], price).supply == VolumeAt(legs, price).supply + l.Supply(price)
    ensures Representable(legs + [l], price) ==> Representable(legs, price) && Comparable(l, price)
  {
    assert (legs + [l])[..|legs|] == legs;
    hide Comparable;
    assert l in legs + [l];
    forall k | k in legs ensures k in legs + [l] {
    }
  }

  /** One record, decoded, does to the sides what its leg does to the volume. */
  lemma RecordMirrors(packed: seq<Byte>, price: Verifier.U256, n: nat, v: Sides, i: Verifier.PackedIntent, l: Leg)
    requires STRIDE * n + STRIDE <= |packed|
    requires Verifier.IntentAt(packed, n) == Ok(i)
    requires l == Leg(i.sellTokenIndex == 0, i.sellAmount, i.minBuyAmount)
    ensures AddRecord(packed, price, n, v).Ok? <==>
      Comparable(l, price) && v.demand + l.Demand(price) < Verifier.TWO_256
        && v.supply + l.Supply(price) < Verifier.TWO_256
    ensures AddRecord(packed, price, n, v).Ok? ==>
      AddRecord(packed, price, n, v).value == Sides(v.demand + l.Demand(price), v.supply + l.Supply(price))
  {
    hide Verifier.IntentAt;
  }

  lemma RepresentableStep(legs: seq<Leg>, l: Leg, price: nat)
    requires Representable(legs, price)
    ensures Representable(legs + [l], price) <==>
      && Comparable(l, price)
      && VolumeAt(legs + [l], price).demand < Verifier.TWO_256 && VolumeAt(legs + [l], price).supply < Verifier.TWO_256
  {
    hide Comparable;
    assert l in legs + [l];
  }

  /** Success exactly when the figures fit, and then the same figures. */
  predicate Mirrors(r: Verifier.VerifyResult<Sides>, legs: seq<Leg>, price: nat)
  {
    && (r.Ok? <==> Representable(legs, price))
    && (r.Ok? ==> r.value.demand == VolumeAt(legs, price).demand && r.value.supply == VolumeAt(legs, price).supply)
  }

  /** Record n decodes to intent n, and its token index is zero exactly when it sells the quote. */
  lemma RecordIsLeg(intents: seq<Intent>, tokens: seq<Address>, n: nat)
    requires PackIntents(intents, tokens).Some? && tokens != []
    requires n < |intents|
    ensures |PackIntents(intents, tokens).value| == STRIDE * |intents|
    ensures var r := Verifier.IntentAt(PackIntents(intents, tokens).value, n);
      r.Ok? && PackedLeg(tokens[0])(intents[n]) ==
        Leg(r.value.sellTokenIndex == 0, r.value.sellAmount, r.value.minBuyAmount)
  {
    Verifier.IntentRoundTrip(intents, tokens, n);
    hide PackIntents, Verifier.IntentAt;
  }

  lemma {:induction false} PrefixMirrors(intents: seq<Intent>, tokens: seq<Address>, packed: seq<Byte>,
      price: Verifier.U256, n: nat)
    requires PackIntents(intents, tokens) == Some(packed) && tokens != []
    requires n <= |intents| && |packed| == STRIDE * |intents|
    ensures Mirrors(SidesOf(packed, price, n), Map(intents[..n], PackedLeg(tokens[0])), price)
  {
    hide PackIntents, Verifier.IntentAt, AddRecord;
    if n > 0 {
      hide Mirrors;
      PrefixMirrors(intents, tokens, packed, price, n - 1);
      var init, l := Map(intents[..n - 1], PackedLeg(tokens[0])), PackedLeg(tokens[0])(intents[n - 1]);
      assert Map(intents[..n], PackedLeg(tokens[0])) == init + [l];
      RecordIsLeg(intents, tokens, n - 1);
      MirrorStep(packed, price, n - 1, init, l);
    }
  }

  lemma MirrorStep(packed: seq<Byte>, price: Verifier.U256, n: nat, init: seq<Leg>, l: Leg)
    requires STRIDE * n + STRIDE <= |packed|
    requires Verifier.IntentAt(packed, n).Ok?
    requires l == Leg(Verifier.IntentAt(packed, n).value.sellTokenIndex == 0,
      Verifier.IntentAt(packed, n).value.sellAmount, Verifier.IntentAt(packed, n).value.minBuyAmount)
    requires Mirrors(SidesOf(packed, price, n), init, price)
    ensures Mirrors(SidesOf(packed, price, n + 1), init + [l], price)
  {
    hide Verifier.IntentAt, AddRecord, Representable, VolumeAt, Comparable;
    VolumeStep(init, l, price);
    if SidesOf(packed, price, n).Ok? {
      RecordMirrors(packed, price, n, SidesOf(packed, price, n).value, Verifier.IntentAt(packed, n).value, l);
      RepresentableStep(init, l, price);
    }
  }

  function IntentPart(): BookEntry -> Intent { (e: BookEntry) => e.intent }

  lemma VolumeFits(legs: seq<Leg>, price: nat)
    ensures VolumeAt(legs, price).executable == Min(VolumeAt(legs, price).demand, VolumeAt(legs, price).supply)
  {
  }

  /** On a pair's packed intents, evaluate_volume succeeds exactly when nothing it forms exceeds 256 bits, and then
      gives the very figures the solver's volumeAt gives on the pair's legs. */
  lemma VolumeMirrors(pair: Pair, tokens: seq<Address>, price: Verifier.U256)
    requires tokens != [] && tokens[0] == pair.quote
    requires PackIntents(Map(pair.entries, IntentPart()), tokens).Some?
    ensures var packed := PackIntents(Map(pair.entries, IntentPart()), tokens).value;
      && (VolumeOf(packed, price).Ok? <==> Representable(LegsOf(pair), price))
      && (VolumeOf(packed, price).Ok? ==> VolumeOf(packed, price).value == VolumeAt(LegsOf(pair), price))
  {
    var intents := Map(pair.entries, IntentPart());
    PackIntentsAt(intents, tokens);
    assert Map(intents, PackedLeg(pair.quote)) == LegsOf(pair);
    hide PackIntents, Representable, VolumeAt, VolumeOf;
    WholeMirrors(intents, tokens, PackIntents(intents, tokens).value, price);
  }

  lemma WholeMirrors(intents: seq<Intent>, tokens: seq<Address>, packed: seq<Byte>, price: Verifier.U256)
    requires PackIntents(intents, tokens) == Some(packed) && tokens != []
    requires |packed| == STRIDE * |intents|
    ensures var legs := Map(intents, PackedLeg(tokens[0]));
      && (VolumeOf(packed, price).Ok? <==> Representable(legs, price))
      && (VolumeOf(packed, price).Ok? ==> VolumeOf(packed, price).value == VolumeAt(legs, price))
  {
    hide PackIntents, Representable, VolumeAt, SidesOf;
    PrefixMirrors(intents, tokens, packed, price, |intents|);
    assert intents[..|intents|] == intents;
    VolumeFits(Map(intents, PackedLeg(tokens[0])), price);
  }
}
