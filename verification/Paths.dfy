/** Which path a pair takes, told by its intents, the oracle and the venue (solver/src/solve.ts). */
module Paths {
  import opened Common
  import opened Solutions
  import opened Clearing
  import opened Allocation
  import opened Solve
  import opened Outcomes
  import SolverMath

  /** Entries of different intents, each selling one of the pair's two tokens for the other. */
  ghost predicate Trades(pair: Pair)
  {
    && pair.base != pair.quote && DistinctEntries(pair.entries)
    && forall e :: e in pair.entries ==> BaseOf(e.intent, pair.quote) == Some(pair.base)
  }

  // ----- a price that crosses

  predicate BuysAt(i: Intent, quote: Address, p: nat)
  {
    i.sellToken == quote && i.minBuyAmount > 0 && i.minBuyAmount * p <= i.sellAmount * WAD
  }

  predicate SellsAt(i: Intent, quote: Address, p: nat)
  {
    i.sellToken != quote && i.sellAmount > 0 && i.minBuyAmount * WAD <= i.sellAmount * p
  }

  /** The price is in the band around the oracle's, and somebody buys and somebody sells at it. */
  ghost predicate Crosses(pair: Pair, ref: Reference, p: nat)
  {
    && p > 0 && Abs(p * ref.quotePrice / WAD - ref.basePrice) * BPS <= ref.basePrice * ref.maxDeviationBps
    && (exists e :: e in pair.entries && BuysAt(e.intent, pair.quote, p))
    && (exists e :: e in pair.entries && SellsAt(e.intent, pair.quote, p))
  }

  lemma InBandIs(p: nat, ref: Reference)
    ensures InBand(p, ref) <==>
      Abs(p * ref.quotePrice / WAD - ref.basePrice) * BPS <= ref.basePrice * ref.maxDeviationBps
  {
    assert p * ref.quotePrice >= 0;
  }

  /** The volume executed is positive exactly when there is a buyer and a seller. */
  lemma VolumePositive(pair: Pair, p: nat)
    ensures VolumeAt(LegsOf(pair), p).executable > 0 <==>
      && (exists e :: e in pair.entries && BuysAt(e.intent, pair.quote, p))
      && (exists e :: e in pair.entries && SellsAt(e.intent, pair.quote, p))
  {
    var legs := LegsOf(pair);
    LegsPositive(pair, DemandAt(p));
    LegsPositive(pair, SupplyAt(p));
    forall e | e in pair.entries
      ensures DemandAt(p)(LegOf(pair.quote)(e)) > 0 <==> BuysAt(e.intent, pair.quote, p)
      ensures SupplyAt(p)(LegOf(pair.quote)(e)) > 0 <==> SellsAt(e.intent, pair.quote, p)
    {
    }
    hide BuysAt, SellsAt, SumBy;
  }

  lemma LegsPositive(pair: Pair, f: Leg -> int)
    requires forall l :: l in LegsOf(pair) ==> f(l) >= 0
    ensures SumBy(LegsOf(pair), f) >= 0
    ensures SumBy(LegsOf(pair), f) > 0 <==> exists e :: e in pair.entries && f(LegOf(pair.quote)(e)) > 0
  {
    var legs := LegsOf(pair);
    SumByNonNegative(legs, f);
    if SumBy(legs, f) > 0 {
      var l := SomeTerm(legs, f);
      var k :| 0 <= k < |legs| && legs[k] == l;
      assert pair.entries[k] in pair.entries;
    }
    forall e | e in pair.entries && f(LegOf(pair.quote)(e)) > 0 ensures SumBy(legs, f) > 0 {
      var k :| 0 <= k < |pair.entries| && pair.entries[k] == e;
      SumByTerm(legs, k, f);
    }
  }

  /** clear finds a price that executes something exactly when some price crosses, and then its own does. */
  lemma ClearExactly(pair: Pair, ref: Reference)
    requires ref.quotePrice > 0
    ensures (exists p :: Crosses(pair, ref, p)) <==> Clear(pair, ref).Some? && Clear(pair, ref).value.executable > 0
    ensures Clear(pair, ref).Some? && Clear(pair, ref).value.executable > 0 ==>
      Crosses(pair, ref, Clear(pair, ref).value.price)
  {
    hide Clear, VolumeAt, LegsOf, InBand, BuysAt, SellsAt;
    ClearSound(pair, ref);
    if Clear(pair, ref).Some? {
      var c := Clear(pair, ref).value;
      VolumePositive(pair, c.price);
      InBandIs(c.price, ref);
      if c.executable > 0 {
        assert Crosses(pair, ref, c.price);
      }
    }
    forall p: nat | Crosses(pair, ref, p) ensures Clear(pair, ref).Some? && Clear(pair, ref).value.executable > 0 {
      InBandIs(p, ref);
      VolumePositive(pair, p);
      ClearMaximises(pair, ref, p);
    }
  }

  // ----- the netted path

  /** What the fills sell and get whose intents sell this token. */
  function SoldOn(pair: Pair, token: Address): Fill -> int
  {
    (f: Fill) => match IntentAt(pair.entries, f.index)
      case Some(i) => if i.sellToken == token then f.executedSell else 0
      case None => 0
  }

  function BoughtOn(pair: Pair, token: Address): Fill -> int
  {
    (f: Fill) => match IntentAt(pair.entries, f.index)
      case Some(i) => if i.sellToken == token then f.executedBuy else 0
      case None => 0
  }

  /** The venue quotes the fill alone, at no more than the fill gets. */
  predicate QuotedWithin(pair: Pair, venue: Venue, f: Fill)
  {
    match IntentAt(pair.entries, f.index)
    case None => false
    case Some(i) =>
      var alone := venue(i.sellToken, i.buyToken, f.executedSell);
      alone.Some? && alone.value <= f.executedBuy
  }

  /** The venue quotes all that a direction sells, at no more than the direction gets. */
  predicate DirectionWithin(pair: Pair, venue: Venue, fills: seq<Fill>, token: Address)
  {
    var sold, bought := SumBy(fills, SoldOn(pair, token)), SumBy(fills, BoughtOn(pair, token));
    sold >= 0 && var whole := venue(token, Other(pair, token), sold); whole.Some? && whole.value <= bought
  }

  /** What is left of a token once the fills are paid. */
  function LeftOf(pair: Pair, fills: seq<Fill>, token: Address): int
  {
    SumBy(fills, SoldOn(pair, token)) - SumBy(fills, BoughtOn(pair, Other(pair, token)))
  }

  /** If a token is short, the venue sells at least the shortage for what is left of the other. */
  predicate ShortageCovered(pair: Pair, venue: Venue, fills: seq<Fill>, token: Address)
  {
    var short, over := LeftOf(pair, fills, token), LeftOf(pair, fills, Other(pair, token));
    short < 0 ==>
      over >= 0 && var out := venue(Other(pair, token), token, over); out.Some? && out.value >= -short
  }

  /** The fills can be netted: there are some, each and each direction beats the venue, and any shortage is covered. */
  ghost predicate Nettable(pair: Pair, venue: Venue, fills: seq<Fill>)
  {
    && fills != []
    && (forall f :: f in fills ==> QuotedWithin(pair, venue, f))
    && (forall f :: f in fills ==>
          IntentAt(pair.entries, f.index).Some?
            && DirectionWithin(pair, venue, fills, IntentAt(pair.entries, f.index).value.sellToken))
    && ShortageCovered(pair, venue, fills, pair.base) && ShortageCovered(pair, venue, fills, pair.quote)
  }

  lemma {:induction false} OwnExactly(pair: Pair, fills: seq<Fill>, venue: Venue)
    requires Indexed(pair, fills)
    ensures OwnBaselines(pair, fills, venue).Ok? <==> forall f :: f in fills ==> QuotedWithin(pair, venue, f)
  {
    hide QuotedWithin, IntentAt;
    if fills != [] {
      var init, f := fills[..|fills| - 1], fills[|fills| - 1];
      OwnExactly(pair, init, venue);
      assert forall g :: g in fills <==> g in init || g == f;
      OwnOne(pair, f, venue);
    }
  }

  lemma OwnOne(pair: Pair, f: Fill, venue: Venue)
    requires IntentAt(pair.entries, f.index).Some?
    ensures var i := IntentAt(pair.entries, f.index).value;
      QuotedWithin(pair, venue, f) <==>
        venue(i.sellToken, i.buyToken, f.executedSell).Some?
          && f.executedBuy >= venue(i.sellToken, i.buyToken, f.executedSell).value
  {
    hide IntentAt;
  }

  /** Lifting one direction works exactly when the venue quotes it at no more than it gets. */
  lemma LiftOneExactly(pair: Pair, fills: seq<Fill>, venue: Venue, token: Address, m: map<nat, nat>)
    requires Trades(pair) && Indexed(pair, fills) && BaselinesFit(fills, m)
    requires Filter(fills, Selling(pair, token)) != []
    ensures LiftDirection(pair, fills, venue, token, m).Ok? <==> DirectionWithin(pair, venue, fills, token)
  {
    var direction := Filter(fills, Selling(pair, token));
    hide SolverMath.Raised, SolverMath.Total, Filter, Total, SetAll, BaselinesFit, IntentAt, Indexed, Trades,
      Other;
    assert direction[0] in direction;
    DirectionTokens(pair, fills, token, direction[0]);
    DirectionSum(pair, fills, token);
    var buyToken := IntentAt(pair.entries, direction[0].index).value.buyToken;
    if venue(token, buyToken, Total(direction)).Some? {
      RoomIs(direction, fills, m, venue(token, buyToken, Total(direction)).value);
    }
  }

  /** A fill's intent sells one token of the pair for the other. */
  lemma DirectionTokens(pair: Pair, fills: seq<Fill>, token: Address, f: Fill)
    requires Trades(pair) && Indexed(pair, fills) && f in fills && Selling(pair, token)(f)
    ensures IntentAt(pair.entries, f.index).Some?
    ensures var i := IntentAt(pair.entries, f.index).value;
      i.sellToken == token && i.buyToken == Other(pair, token)
  {
    IntentIsEntry(pair.entries, f.index);
  }

  lemma {:induction false} IntentIsEntry(entries: seq<BookEntry>, index: nat)
    ensures IntentAt(entries, index).Some? ==>
      exists e :: e in entries && e.index == index && e.intent == IntentAt(entries, index).value
  {
    if entries != [] && entries[|entries| - 1].index != index {
      IntentIsEntry(entries[..|entries| - 1], index);
      assert forall e :: e in entries[..|entries| - 1] ==> e in entries;
    }
  }

  lemma DirectionSum(pair: Pair, fills: seq<Fill>, token: Address)
    ensures Total(Filter(fills, Selling(pair, token))) == SumBy(fills, SoldOn(pair, token))
    ensures SumBy(Filter(fills, Selling(pair, token)), BuyOf()) == SumBy(fills, BoughtOn(pair, token))
  {
    var direction := Filter(fills, Selling(pair, token));
    SumByFilterZero(fills, Selling(pair, token), SoldOn(pair, token));
    SumByFilterZero(fills, Selling(pair, token), BoughtOn(pair, token));
    SumByEq(direction, SoldOn(pair, token), SellOf());
    SumByEq(direction, BoughtOn(pair, token), BuyOf());
  }

  /** Baselines within their fills can be raised to a floor exactly when the fills together reach it. */
  lemma RoomIs(direction: seq<Fill>, fills: seq<Fill>, m: map<nat, nat>, floor: nat)
    requires BaselinesFit(fills, m) && forall f :: f in direction ==> f in fills
    ensures SolverMath.Raised(Baselines(m, direction), ExecutedBuys(direction), floor).Some? <==>
      floor <= SumBy(direction, BuyOf())
  {
    var baselines, buys := Baselines(m, direction), ExecutedBuys(direction);
    hide SolverMath.Raised, SolverMath.Total;
    SolverMath.RaisedMeetsFloor(baselines, buys, floor);
    var ceilings := seq(|baselines|, k requires 0 <= k < |baselines| => Max(baselines[k], buys[k]));
    forall k | 0 <= k < |direction| ensures ceilings[k] == BuyOf()(direction[k]) {
      assert direction[k] in direction;
    }
    SumByValues(direction, BuyOf(), ceilings);
  }

  lemma {:induction false} LiftAllExactly(pair: Pair, fills: seq<Fill>, venue: Venue, tokens: seq<Address>,
      m: map<nat, nat>)
    requires Trades(pair) && Indexed(pair, fills) && DistinctFills(fills) && Distinct(tokens)
    requires forall t :: t in tokens ==> Filter(fills, Selling(pair, t)) != []
    requires BaselinesFit(fills, m)
    ensures LiftAll(pair, fills, venue, tokens, m).Ok? <==>
      forall t :: t in tokens ==> DirectionWithin(pair, venue, fills, t)
  {
    hide Trades, Indexed, DistinctFills, BaselinesFit, LiftDirection, DirectionWithin, Filter, Reached;
    if tokens != [] {
      var init, last := tokens[..|tokens| - 1], tokens[|tokens| - 1];
      assert last in tokens;
      assert forall t :: t in tokens <==> t in init || t == last;
      LiftAllExactly(pair, fills, venue, init, m);
      if LiftAll(pair, fills, venue, init, m).Ok? {
        LiftAllFits(pair, fills, venue, init, m);
        LiftOneExactly(pair, fills, venue, last, LiftAll(pair, fills, venue, init, m).value);
      }
    }
  }

  /** Every fill gets a baseline exactly when each fill and each direction beats the venue. */
  lemma LiftedExactly(pair: Pair, fills: seq<Fill>, venue: Venue)
    requires Trades(pair) && Indexed(pair, fills) && DistinctFills(fills)
    ensures LiftedBaselines(pair, fills, venue).Ok? <==>
      && (forall f :: f in fills ==> QuotedWithin(pair, venue, f))
      && (forall f :: f in fills ==>
            DirectionWithin(pair, venue, fills, IntentAt(pair.entries, f.index).value.sellToken))
  {
    hide Trades, DistinctFills, BaselinesFit, DirectionWithin, QuotedWithin, IntentAt;
    OwnExactly(pair, fills, venue);
    SellTokensSell(pair, fills);
    if OwnBaselines(pair, fills, venue).Ok? {
      OwnBaselinesFit(pair, fills, venue);
      LiftAllExactly(pair, fills, venue, SellTokens(pair, fills), OwnBaselines(pair, fills, venue).value);
      TokensAreSold(pair, fills);
    }
  }

  lemma {:induction false} TokensAreSold(pair: Pair, fills: seq<Fill>)
    requires Indexed(pair, fills)
    ensures forall t :: t in SellTokens(pair, fills) <==>
      exists f :: f in fills && IntentAt(pair.entries, f.index).value.sellToken == t
  {
    hide IntentAt;
    if fills != [] {
      var init, last := fills[..|fills| - 1], fills[|fills| - 1];
      assert last in fills;
      TokensAreSold(pair, init);
      assert forall f :: f in fills <==> f in init || f == last;
    }
  }

  /** The one call that covers a shortage, or none. */
  predicate CallsCover(pair: Pair, venue: Venue, fills: seq<Fill>, calls: seq<VenueCall>)
  {
    var base, quote := LeftOf(pair, fills, pair.base), LeftOf(pair, fills, pair.quote);
    if base >= 0 && quote >= 0 then calls == []
    else
      && |calls| == 1
      && var call := calls[0];
         && call.tokenIn == (if base < 0 then pair.quote else pair.base)
         && call.tokenOut == Other(pair, call.tokenIn)
         && call.amountIn == (if base < 0 then quote else base)
         && venue(call.tokenIn, call.tokenOut, call.amountIn) == Some(call.minOut)
  }

  lemma LeftIsResidual(pair: Pair, fills: seq<Fill>)
    requires Trades(pair) && Indexed(pair, fills)
    ensures ResidualOf(pair, fills).base == LeftOf(pair, fills, pair.base)
    ensures ResidualOf(pair, fills).quote == LeftOf(pair, fills, pair.quote)
  {
    forall f | f in fills
      ensures BaseNet(pair)(f) == 1 * SoldOn(pair, pair.base)(f) + (-1) * BoughtOn(pair, pair.quote)(f)
      ensures QuoteNet(pair)(f) == 1 * SoldOn(pair, pair.quote)(f) + (-1) * BoughtOn(pair, pair.base)(f)
    {
      IntentIsEntry(pair.entries, f.index);
    }
    hide SoldOn, BoughtOn, BaseNet, QuoteNet, Trades, Indexed, IntentAt;
    SumByLinear(fills, SoldOn(pair, pair.base), 1, BoughtOn(pair, pair.quote), -1, BaseNet(pair));
    SumByLinear(fills, SoldOn(pair, pair.quote), 1, BoughtOn(pair, pair.base), -1, QuoteNet(pair));
  }

  /** The residual is routed exactly when any shortage is covered. */
  lemma RouteExactly(pair: Pair, fills: seq<Fill>, venue: Venue)
    requires Trades(pair) && Indexed(pair, fills)
    ensures Route(pair, fills, VenueOut(venue)).Ok? <==>
      ShortageCovered(pair, venue, fills, pair.base) && ShortageCovered(pair, venue, fills, pair.quote)
    ensures Route(pair, fills, VenueOut(venue)).Ok? ==>
      CallsCover(pair, venue, fills, Route(pair, fills, VenueOut(venue)).value)
  {
    LeftIsResidual(pair, fills);
    hide ResidualOf, LeftOf;
  }
}
