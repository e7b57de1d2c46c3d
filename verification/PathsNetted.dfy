/** When a pair is netted, and with what baselines, told by its intents, the oracle and the venue
    (solver/src/solve.ts). */
module PathsNetted {
  import opened Common
  import opened Solutions
  import opened Clearing
  import opened Allocation
  import opened Solve
  import opened Outcomes
  import opened Paths
  import SolverMath

  // ----- the baselines

  /** The venue's quote on the fill alone. */
  function QuotedAlone(pair: Pair, venue: Venue, f: Fill): nat
  {
    match IntentAt(pair.entries, f.index)
    case None => 0
    case Some(i) =>
      match venue(i.sellToken, i.buyToken, f.executedSell) case Some(out) => out case None => 0
  }

  function AloneOn(pair: Pair, venue: Venue, token: Address): Fill -> int
  {
    (f: Fill) => if Selling(pair, token)(f) then QuotedAlone(pair, venue, f) else 0
  }

  function ClaimedOn(pair: Pair, token: Address, m: map<nat, nat>): Fill -> int
  {
    (f: Fill) => if Selling(pair, token)(f) then BaselineOf(m)(f) else 0
  }

  /** One direction's baselines add up to the larger of the fills' own quotes together and the venue's quote on all that
      the direction sells. */
  predicate DirectionClaims(pair: Pair, venue: Venue, fills: seq<Fill>, token: Address, m: map<nat, nat>)
  {
    var sold := SumBy(fills, SoldOn(pair, token));
    && sold >= 0 && venue(token, Other(pair, token), sold).Some?
    && SumBy(fills, ClaimedOn(pair, token, m)) ==
       Max(SumBy(fills, AloneOn(pair, venue, token)), venue(token, Other(pair, token), sold).value)
  }

  /** Every fill has a baseline from its own quote to what it gets, and each direction's add up as they must. */
  ghost predicate BaselinesAre(pair: Pair, venue: Venue, fills: seq<Fill>, m: map<nat, nat>)
  {
    && (forall f :: f in fills ==>
          && f.index in m && QuotedAlone(pair, venue, f) <= m[f.index] <= f.executedBuy
          && IntentAt(pair.entries, f.index).Some?
          && DirectionClaims(pair, venue, fills, IntentAt(pair.entries, f.index).value.sellToken, m))
    && forall index :: index in m ==> exists f :: f in fills && f.index == index
  }

  lemma {:induction false} OwnIsAlone(pair: Pair, fills: seq<Fill>, venue: Venue)
    requires Indexed(pair, fills) && DistinctFills(fills) && OwnBaselines(pair, fills, venue).Ok?
    ensures var m := OwnBaselines(pair, fills, venue).value;
      forall f :: f in fills ==> f.index in m && m[f.index] == QuotedAlone(pair, venue, f)
  {
    hide IntentAt;
    if fills != [] {
      var init, last := fills[..|fills| - 1], fills[|fills| - 1];
      OwnIsAlone(pair, init, venue);
      forall f | f in init ensures f.index != last.index {
        var k :| 0 <= k < |init| && init[k] == f;
        assert fills[k].index != last.index;
      }
      assert forall f :: f in fills <==> f in init || f == last;
      assert last in fills;
    }
  }

  /** The direction's baselines rise to the venue's quote on it, if they are below. */
  predicate ClaimsRise(pair: Pair, fills: seq<Fill>, venue: Venue, token: Address, m: map<nat, nat>, r: map<nat, nat>)
  {
    var sold := SumBy(fills, SoldOn(pair, token));
    && sold >= 0 && venue(token, Other(pair, token), sold).Some?
    && SumBy(fills, ClaimedOn(pair, token, r)) ==
       Max(SumBy(fills, ClaimedOn(pair, token, m)), venue(token, Other(pair, token), sold).value)
  }

  /** What lifting one direction does to the baselines. */
  ghost predicate Lifts(pair: Pair, fills: seq<Fill>, venue: Venue, token: Address, m: map<nat, nat>, r: map<nat, nat>)
  {
    && (forall f :: f in fills ==> f.index in m && f.index in r && m[f.index] <= r[f.index])
    && (forall f :: f in fills && !Selling(pair, token)(f) ==> r[f.index] == m[f.index])
    && ClaimsRise(pair, fills, venue, token, m, r)
  }

  lemma LiftIs(pair: Pair, fills: seq<Fill>, venue: Venue, token: Address, m: map<nat, nat>)
    requires Trades(pair) && Indexed(pair, fills) && DistinctFills(fills) && BaselinesFit(fills, m)
    requires Filter(fills, Selling(pair, token)) != [] && LiftDirection(pair, fills, venue, token, m).Ok?
    ensures Lifts(pair, fills, venue, token, m, LiftDirection(pair, fills, venue, token, m).value)
  {
    var direction := Filter(fills, Selling(pair, token));
    hide SolverMath.Raised, SolverMath.Total, Filter, SetAll, IntentAt, Trades, Other, Selling, SoldOn,
      BoughtOn, ExecutedBuys, Baselines, Naturals, DistinctFills;
    assert direction[0] in direction;
    DirectionTokens(pair, fills, token, direction[0]);
    DirectionSum(pair, fills, token);
    var buyToken := IntentAt(pair.entries, direction[0].index).value.buyToken;
    var floor := venue(token, buyToken, Total(direction)).value;
    FillsFilterDistinct(fills, Selling(pair, token));
    SolverMath.RaisedMeetsFloor(Baselines(m, direction), ExecutedBuys(direction), floor);
    var raised := SolverMath.Raised(Baselines(m, direction), ExecutedBuys(direction), floor).value;
    SetDirection(fills, direction, m, raised);
    var r := LiftDirection(pair, fills, venue, token, m).value;
    RaisedUp(direction, m, raised);
    BaselinesTotal(direction, m);
    ClaimedIs(pair, fills, token, m);
    ClaimedIs(pair, fills, token, r);
  }

  lemma RaisedUp(direction: seq<Fill>, m: map<nat, nat>, raised: seq<int>)
    requires DistinctFills(direction) && |raised| == |direction|
    requires forall k :: 0 <= k < |direction| ==> Baselines(m, direction)[k] <= raised[k]
    ensures var r := SetAll(m, direction, Naturals(raised));
      forall f :: f in direction && f.index in m ==> f.index in r && m[f.index] <= r[f.index]
  {
    SetAllFacts(m, direction, Naturals(raised));
    hide SetAll;
    forall f | f in direction && f.index in m
      ensures f.index in SetAll(m, direction, Naturals(raised)) &&
        m[f.index] <= SetAll(m, direction, Naturals(raised))[f.index]
    {
      var k :| 0 <= k < |direction| && direction[k] == f;
      assert Baselines(m, direction)[k] == m[f.index];
    }
  }

  lemma BaselinesTotal(direction: seq<Fill>, m: map<nat, nat>)
    ensures SolverMath.Total(Baselines(m, direction)) == SumBy(direction, BaselineOf(m))
  {
    SumByValues(direction, BaselineOf(m), Baselines(m, direction));
  }

  lemma ClaimedIs(pair: Pair, fills: seq<Fill>, token: Address, m: map<nat, nat>)
    ensures SumBy(fills, ClaimedOn(pair, token, m)) == SumBy(Filter(fills, Selling(pair, token)), BaselineOf(m))
  {
    SumByFilterZero(fills, Selling(pair, token), ClaimedOn(pair, token, m));
    SumByEq(Filter(fills, Selling(pair, token)), ClaimedOn(pair, token, m), BaselineOf(m));
  }

  /** Directions lifted one after another. */
  lemma {:induction false} LiftAllIs(pair: Pair, fills: seq<Fill>, venue: Venue, tokens: seq<Address>, m: map<nat, nat>)
    requires Trades(pair) && Indexed(pair, fills) && DistinctFills(fills) && Distinct(tokens)
    requires forall t :: t in tokens ==> Filter(fills, Selling(pair, t)) != []
    requires BaselinesFit(fills, m) && LiftAll(pair, fills, venue, tokens, m).Ok?
    ensures var r := LiftAll(pair, fills, venue, tokens, m).value;
      && (forall f :: f in fills ==> f.index in m && f.index in r && m[f.index] <= r[f.index])
      && (forall t :: t !in tokens ==> SumBy(fills, ClaimedOn(pair, t, r)) == SumBy(fills, ClaimedOn(pair, t, m)))
      && forall t :: t in tokens ==> ClaimsRise(pair, fills, venue, t, m, r)
  {
    hide Trades, Indexed, DistinctFills, LiftDirection, Filter, SumBy, Selling, Lifts, Other, BaselinesFit,
      ClaimsRise;
    if tokens == [] {
      FitHere(fills, m);
    } else {
      var init, last := tokens[..|tokens| - 1], tokens[|tokens| - 1];
      assert last in tokens;
      assert forall t :: t in tokens <==> t in init || t == last;
      LiftAllIs(pair, fills, venue, init, m);
      LiftAllFits(pair, fills, venue, init, m);
      var before, after := LiftAll(pair, fills, venue, init, m).value, LiftAll(pair, fills, venue, tokens, m).value;
      LiftIs(pair, fills, venue, last, before);
      LiftedRises(pair, fills, venue, last, m, before, after);
      forall t: Address | t != last
        ensures SumBy(fills, ClaimedOn(pair, t, after)) == SumBy(fills, ClaimedOn(pair, t, before))
      {
        OthersStay(pair, fills, venue, last, t, before, after);
      }
      forall t | t in init ensures ClaimsRise(pair, fills, venue, t, m, after) {
        RiseStays(pair, fills, venue, t, m, before, after);
      }
    }
  }

  lemma FitHere(fills: seq<Fill>, m: map<nat, nat>)
    requires BaselinesFit(fills, m)
    ensures forall f :: f in fills ==> f.index in m
  {
  }

  lemma LiftedRises(pair: Pair, fills: seq<Fill>, venue: Venue, token: Address, m: map<nat, nat>,
      before: map<nat, nat>, after: map<nat, nat>)
    requires Lifts(pair, fills, venue, token, before, after)
    requires forall f :: f in fills ==> f.index in m && f.index in before && m[f.index] <= before[f.index]
    requires SumBy(fills, ClaimedOn(pair, token, before)) == SumBy(fills, ClaimedOn(pair, token, m))
    ensures ClaimsRise(pair, fills, venue, token, m, after)
    ensures forall f :: f in fills ==> f.index in m && f.index in after && m[f.index] <= after[f.index]
  {
    hide SumBy;
  }

  lemma OthersStay(pair: Pair, fills: seq<Fill>, venue: Venue, lifted: Address, token: Address, before: map<nat, nat>,
      after: map<nat, nat>)
    requires token != lifted && Lifts(pair, fills, venue, lifted, before, after)
    ensures SumBy(fills, ClaimedOn(pair, token, after)) == SumBy(fills, ClaimedOn(pair, token, before))
  {
    hide ClaimsRise, IntentAt;
    forall f | f in fills ensures ClaimedOn(pair, token, after)(f) == ClaimedOn(pair, token, before)(f) {
      assert Selling(pair, token)(f) ==> !Selling(pair, lifted)(f);
    }
    SumByEq(fills, ClaimedOn(pair, token, after), ClaimedOn(pair, token, before));
  }

  lemma RiseStays(pair: Pair, fills: seq<Fill>, venue: Venue, token: Address, m: map<nat, nat>, before: map<nat, nat>,
      after: map<nat, nat>)
    requires ClaimsRise(pair, fills, venue, token, m, before)
    requires SumBy(fills, ClaimedOn(pair, token, after)) == SumBy(fills, ClaimedOn(pair, token, before))
    ensures ClaimsRise(pair, fills, venue, token, m, after)
  {
    hide SumBy;
  }

  /** The baselines a netted pair claims. */
  lemma BaselinesExactly(pair: Pair, fills: seq<Fill>, venue: Venue)
    requires Trades(pair) && Indexed(pair, fills) && DistinctFills(fills)
    requires LiftedBaselines(pair, fills, venue).Ok?
    ensures BaselinesAre(pair, venue, fills, LiftedBaselines(pair, fills, venue).value)
  {
    hide Trades, DistinctFills, LiftAll, IntentAt, SumBy, QuotedAlone, ClaimsRise, DirectionClaims;
    SellTokensSell(pair, fills);
    OwnIsAlone(pair, fills, venue);
    OwnBaselinesFit(pair, fills, venue);
    var own, m := OwnBaselines(pair, fills, venue).value, LiftedBaselines(pair, fills, venue).value;
    LiftAllIs(pair, fills, venue, SellTokens(pair, fills), own);
    LiftAllFits(pair, fills, venue, SellTokens(pair, fills), own);
    TokensAreSold(pair, fills);
    forall t | t in SellTokens(pair, fills) ensures DirectionClaims(pair, venue, fills, t, m) {
      RiseIsClaim(pair, fills, venue, t, own, m);
    }
    forall index | index in m ensures exists f :: f in fills && f.index == index {
      FillIndicesExact(fills, index);
    }
  }

  lemma AloneIs(pair: Pair, venue: Venue, token: Address, own: map<nat, nat>, f: Fill)
    requires f.index in own && own[f.index] == QuotedAlone(pair, venue, f)
    ensures ClaimedOn(pair, token, own)(f) == AloneOn(pair, venue, token)(f)
  {
    hide QuotedAlone;
    assert BaselineOf(own)(f) == own[f.index];
  }

  lemma RiseIsClaim(pair: Pair, fills: seq<Fill>, venue: Venue, token: Address, own: map<nat, nat>, m: map<nat, nat>)
    requires ClaimsRise(pair, fills, venue, token, own, m)
    requires forall f :: f in fills ==> f.index in own && own[f.index] == QuotedAlone(pair, venue, f)
    ensures DirectionClaims(pair, venue, fills, token, m)
  {
    hide QuotedAlone, Selling, SumBy;
    forall f | f in fills ensures ClaimedOn(pair, token, own)(f) == AloneOn(pair, venue, token)(f) {
      AloneIs(pair, venue, token, own, f);
    }
    SumByEq(fills, ClaimedOn(pair, token, own), AloneOn(pair, venue, token));
  }

  // ----- the netted path

  /** The fills clear's price allots. */
  function ClearedFills(pair: Pair, ref: Reference): seq<Fill>
    requires ref.quotePrice > 0 && DistinctEntries(pair.entries) && Clear(pair, ref).Some?
  {
    Allocate(pair, Clear(pair, ref).value.price, ref, 0).fills
  }

  /** Netting works: some price crosses, and what clear's price allots can be netted. */
  ghost predicate Nets(pair: Pair, ref: Reference, venue: Venue)
    requires ref.quotePrice > 0 && DistinctEntries(pair.entries)
  {
    (exists p :: Crosses(pair, ref, p)) && Clear(pair, ref).Some? && Nettable(pair, venue, ClearedFills(pair, ref))
  }

  /** The pair is kept netted, at clear's price, with those fills and the call that covers a shortage. */
  ghost predicate NettedAs(pair: Pair, ref: Reference, venue: Venue, o: PairOutcome)
    requires ref.quotePrice > 0 && DistinctEntries(pair.entries) && Clear(pair, ref).Some?
  {
    && o.Kept? && o.mode == Netted && o.base == pair.base && o.fills == ClearedFills(pair, ref)
    && Crosses(pair, ref, Clear(pair, ref).value.price)
    && o.basePrice == Clear(pair, ref).value.price * ref.quotePrice / WAD
    && CallsCover(pair, venue, o.fills, o.venueCalls) && BaselinesAre(pair, venue, o.fills, o.baselines)
  }

  /** A pair is netted if and only if netting works. */
  lemma NettedExactly(pair: Pair, ref: Reference, venue: Venue)
    requires ref.quotePrice > 0 && Trades(pair)
    ensures TryNetted(pair, ref, venue).Kept? <==> Nets(pair, ref, venue)
    ensures TryNetted(pair, ref, venue).Kept? ==>
      Clear(pair, ref).Some? && NettedAs(pair, ref, venue, TryNetted(pair, ref, venue))
  {
    hide Clear, Allocate, LiftedBaselines, Route, CallsCover, ShortageCovered, DirectionWithin, QuotedWithin, Crosses,
      BaseOf, BaselinesAre;
    ClearExactly(pair, ref);
    if Clear(pair, ref).Some? {
      ExecutableNatural(pair, ref);
      var price := Clear(pair, ref).value.price;
      AllocationIndexed(pair, price, ref, 0);
      AllotmentPrice(pair, price, ref);
      var fills := Allocate(pair, price, ref, 0).fills;
      if fills != [] {
        LiftedExactly(pair, fills, venue);
        if LiftedBaselines(pair, fills, venue).Ok? { BaselinesExactly(pair, fills, venue); }
        RouteExactly(pair, fills, venue);
      }
    }
  }

  lemma ExecutableNatural(pair: Pair, ref: Reference)
    requires ref.quotePrice > 0 && Clear(pair, ref).Some?
    ensures Clear(pair, ref).value.executable >= 0
  {
    hide Clear, LegsOf;
    ClearSound(pair, ref);
    var legs, p := LegsOf(pair), Clear(pair, ref).value.price;
    SumByNonNegative(legs, DemandAt(p));
    SumByNonNegative(legs, SupplyAt(p));
  }

  lemma AllotmentPrice(pair: Pair, price: nat, ref: Reference)
    requires ref.quotePrice > 0 && DistinctEntries(pair.entries)
    ensures DistinctFills(Allocate(pair, price, ref, 0).fills)
    ensures Allocate(pair, price, ref, 0).basePrice == price * ref.quotePrice / WAD
  {
    hide Final, Fills;
    assert price * ref.quotePrice >= 0;
    if UnitPrice(price, ref) > 0 {
      FillsFine(pair, price, ref.quotePrice, UnitPrice(price, ref), 0);
    }
  }
}
