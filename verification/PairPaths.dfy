/** What solve makes of a pair, told by its intents, the oracle and the venue (solver/src/solve.ts). */
module PairPaths {
  import opened Common
  import opened Solutions
  import opened Clearing
  import opened Allocation
  import opened Solve
  import opened Outcomes
  import opened Paths
  import opened PathsNetted
  import opened PathsRouted
  import SolverMath

  /** What a list of entries brings at a unit price, each entry's value rounded down. */
  function Value(side: seq<BookEntry>, price: nat): int { SumBy(side, UsdOf(price)) }

  /** The buyers bring at least what the sellers bring. */
  predicate BuyersLarger(pair: Pair, ref: Reference)
  {
    Value(Side(pair, true), ref.quotePrice) >= Value(Side(pair, false), ref.basePrice)
  }

  /** The side can be routed: passes from it end on one that stands. */
  ghost predicate Routable(pair: Pair, ref: Reference, venue: Venue, buying: bool)
  {
    exists passes, out, price :: Routes(pair, ref, venue, buying, passes, out, price) && passes[0] == Side(pair, buying)
  }

  /** The outcome routes what such passes end on. */
  ghost predicate RoutesIt(pair: Pair, ref: Reference, venue: Venue, buying: bool, o: PairOutcome)
  {
    exists passes, out, price :: Routes(pair, ref, venue, buying, passes, out, price) && passes[0] == Side(pair, buying)
      && RoutedAs(pair, buying, passes[|passes| - 1], out, price, o)
  }

  lemma SidesAre(pair: Pair)
    ensures Side(pair, true) == Filter(pair.entries, SellsQuote(pair.quote))
    ensures Side(pair, false) == Filter(pair.entries, SellsBase(pair.quote))
  {
    FilterSame(pair.entries, OnSide(pair.quote, true), SellsQuote(pair.quote));
    FilterSame(pair.entries, OnSide(pair.quote, false), SellsBase(pair.quote));
  }

  lemma {:induction false} PartDistinct(entries: seq<BookEntry>, p: BookEntry -> bool)
    requires DistinctEntries(entries)
    ensures DistinctEntries(Filter(entries, p))
  {
    if entries != [] {
      var init, last := entries[..|entries| - 1], entries[|entries| - 1];
      PartDistinct(init, p);
      forall k | 0 <= k < |Filter(init, p)| ensures Filter(init, p)[k].index != last.index {
        assert Filter(init, p)[k] in init;
      }
    }
  }

  lemma SideOk(pair: Pair, buying: bool)
    requires DistinctEntries(pair.entries) && AllSell(pair.entries)
    ensures DistinctEntries(Side(pair, buying)) && AllSell(Side(pair, buying))
  {
    PartDistinct(pair.entries, OnSide(pair.quote, buying));
  }

  /** One side is routed exactly when it can be. */
  lemma SideExactly(pair: Pair, ref: Reference, venue: Venue, buying: bool)
    requires DistinctEntries(pair.entries) && AllSell(pair.entries)
    ensures AllSell(Side(pair, buying))
    ensures var o := RouteSide(pair, Side(pair, buying), buying, ref, venue);
      && (o.Kept? <==> Routable(pair, ref, venue, buying))
      && (o.Kept? ==> RoutesIt(pair, ref, venue, buying, o))
  {
    SideOk(pair, buying);
    hide Side, RouteSide, Routes, RoutedAs, AllSell, DistinctEntries;
    var o := RouteSide(pair, Side(pair, buying), buying, ref, venue);
    if o.Kept? {
      var passes, out := KeptRoutes(pair, Side(pair, buying), buying, ref, venue);
    }
    if Routable(pair, ref, venue, buying) {
      var passes, out, price :|
        Routes(pair, ref, venue, buying, passes, out, price) && passes[0] == Side(pair, buying);
      RoutesKept(pair, Side(pair, buying), buying, ref, venue, passes, out, price);
    }
  }

  lemma NothingToDo(pair: Pair, buying: bool, ref: Reference, venue: Venue)
    ensures RouteSide(pair, [], buying, ref, venue).Skipped?
  {
  }

  /** tryRouted routes the side that brings more. */
  lemma TryIs(pair: Pair, ref: Reference, venue: Venue)
    requires AllSell(pair.entries)
    ensures var buying := BuyersLarger(pair, ref);
      && AllSell(Side(pair, buying))
      && TryRouted(pair, ref, venue).Kept? == RouteSide(pair, Side(pair, buying), buying, ref, venue).Kept?
      && (TryRouted(pair, ref, venue).Kept? ==>
            TryRouted(pair, ref, venue) == RouteSide(pair, Side(pair, buying), buying, ref, venue))
  {
    SidesAre(pair);
    NothingToDo(pair, BuyersLarger(pair, ref), ref, venue);
    hide Side, RouteSide, Filter;
  }

  /** Without netting the larger side is routed, if it can be. */
  lemma LargerExactly(pair: Pair, ref: Reference, venue: Venue)
    requires DistinctEntries(pair.entries) && AllSell(pair.entries)
    ensures var o, buying := TryRouted(pair, ref, venue), BuyersLarger(pair, ref);
      && (o.Kept? <==> Routable(pair, ref, venue, buying))
      && (o.Kept? ==> RoutesIt(pair, ref, venue, buying, o))
  {
    hide Side, RouteSide, Routable, RoutesIt, TryRouted, BuyersLarger;
    TryIs(pair, ref, venue);
    SideExactly(pair, ref, venue, BuyersLarger(pair, ref));
  }

  // ----- the routing profile

  /** The pair cut down to one side. */
  function OneSide(pair: Pair, buying: bool): Pair { pair.(entries := Side(pair, buying)) }

  lemma SideOfSide(pair: Pair, buying: bool)
    ensures Side(OneSide(pair, buying), buying) == Side(pair, buying)
    ensures Side(OneSide(pair, buying), !buying) == []
  {
    FilterAll(Side(pair, buying), OnSide(pair.quote, buying));
    FilterNone(Side(pair, buying), OnSide(pair.quote, !buying));
  }

  /** Routing a side reads only the tokens of its pair. */
  lemma {:induction false} SameRoute(pair: Pair, other: Pair, side: seq<BookEntry>, buying: bool, ref: Reference,
      venue: Venue)
    requires AllSell(side) && other.base == pair.base && other.quote == pair.quote
    ensures RouteSide(other, side, buying, ref, venue) == RouteSide(pair, side, buying, ref, venue)
    decreases |side|
  {
    hide SplitOut, FirstBroken, WorstImplied, UniformAt, BuyMap, SideTotal, SolverMath.WithinBand;
    if side != [] {
      var tokenIn, tokenOut := if buying then pair.quote else pair.base, if buying then pair.base else pair.quote;
      if venue(tokenIn, tokenOut, SideTotal(side)).Some? {
        var fills := SplitOut(side, venue(tokenIn, tokenOut, SideTotal(side)).value);
        if FirstBroken(side, fills).Some? {
          var e := FirstBroken(side, fills).value;
          EntriesShorter(side, OtherEntry(e.index), e);
          SameRoute(pair, other, Filter(side, OtherEntry(e.index)), buying, ref, venue);
        }
      }
    }
  }

  /** Routed on their own the buyers are kept exactly when they can be routed; the sellers when they can be and bring
      something worth counting. */
  ghost predicate RoutableAlone(pair: Pair, ref: Reference, venue: Venue, buying: bool)
  {
    Routable(pair, ref, venue, buying) && (buying || Value(Side(pair, false), ref.basePrice) > 0)
  }

  lemma AloneLarger(pair: Pair, ref: Reference, buying: bool)
    ensures BuyersLarger(OneSide(pair, buying), ref) == (buying || Value(Side(pair, false), ref.basePrice) <= 0)
  {
    SideOfSide(pair, buying);
    SumByNonNegative(Side(pair, buying), UsdOf(ref.quotePrice));
    hide Side;
    assert Value([], ref.quotePrice) == 0 == Value([], ref.basePrice);
  }

  lemma AloneExactly(pair: Pair, ref: Reference, venue: Venue, buying: bool)
    requires DistinctEntries(pair.entries) && AllSell(pair.entries)
    ensures AllSell(Side(pair, buying))
    ensures var o := TryRouted(OneSide(pair, buying), ref, venue);
      && (o.Kept? <==> RoutableAlone(pair, ref, venue, buying))
      && (o.Kept? ==> RoutesIt(pair, ref, venue, buying, o))
  {
    hide Side, RouteSide, Routable, RoutesIt, AllSell, DistinctEntries, BuyersLarger, Value, TryRouted;
    SideOk(pair, buying);
    SideOfSide(pair, buying);
    AloneLarger(pair, ref, buying);
    TryIs(OneSide(pair, buying), ref, venue);
    SideExactly(pair, ref, venue, buying);
    SameRoute(pair, OneSide(pair, buying), Side(pair, buying), buying, ref, venue);
    NothingToDo(OneSide(pair, buying), !buying, ref, venue);
  }

  /** At one base price, what the fill gets is within the fee of what it gives. */
  predicate FeeSuits(f: Fill, buying: bool, q: nat, price: nat)
  {
    var valueIn := if buying then f.executedSell * q else f.executedSell * price;
    var valueOut := if buying then f.executedBuy * price else f.executedBuy * q;
    valueOut <= valueIn && (valueIn - valueOut) * BPS <= valueIn * FEE_CAP_NOTIONAL_BPS
  }

  /** The buyers' price suits both sides. */
  ghost predicate SuitsBoth(ref: Reference, buy: PairOutcome, sell: PairOutcome)
    requires buy.Kept? && sell.Kept?
  {
    && (forall f :: f in buy.fills ==> FeeSuits(f, true, ref.quotePrice, buy.basePrice))
    && (forall f :: f in sell.fills ==> FeeSuits(f, false, ref.quotePrice, buy.basePrice))
  }

  /** With both sides routable, both are routed at the buyers' price if it suits both, and otherwise the one that brings
      more. */
  ghost predicate BothSides(ref: Reference, buy: PairOutcome, sell: PairOutcome, o: PairOutcome)
    requires buy.Kept? && sell.Kept? && |buy.venueCalls| == 1 == |sell.venueCalls|
  {
    if SuitsBoth(ref, buy, sell) then
      && o.Kept? && o.base == buy.base && o.mode == Routed && o.fills == buy.fills + sell.fills
      && o.basePrice == buy.basePrice && o.venueCalls == buy.venueCalls + sell.venueCalls
      && o.baselines == buy.baselines + sell.baselines
    else if buy.venueCalls[0].amountIn * ref.quotePrice >= sell.venueCalls[0].amountIn * ref.basePrice then o == buy
    else o == sell
  }

  lemma RoutedShape(pair: Pair, ref: Reference, venue: Venue, buying: bool, o: PairOutcome)
    requires RoutesIt(pair, ref, venue, buying, o)
    ensures o.Kept? && o.mode == Routed && o.base == pair.base && |o.venueCalls| == 1
  {
    hide Routes;
  }

  /** routeEverything, by what becomes of each side alone. */
  lemma EverythingIs(pair: Pair, ref: Reference, venue: Venue)
    requires AllSell(pair.entries) && AllSell(Side(pair, true)) && AllSell(Side(pair, false))
    ensures var o, buy, sell := RouteEverything(pair, ref, venue), TryRouted(OneSide(pair, true), ref, venue),
        TryRouted(OneSide(pair, false), ref, venue);
      && (o.Kept? <==> buy.Kept? || sell.Kept?)
      && (buy.Kept? && !sell.Kept? ==> o == buy)
      && (sell.Kept? && !buy.Kept? ==> o == sell)
      && (buy.Kept? && sell.Kept? && |buy.venueCalls| == 1 == |sell.venueCalls| && buy.base == pair.base ==>
            BothSides(ref, buy, sell, o))
  {
    hide Side, TryRouted, Filter, FeeSuits, UniformAt, AllSell, SuitsBoth;
    SidesAre(pair);
    if Side(pair, true) == [] { EmptySide(pair, true, ref, venue); }
    if Side(pair, false) == [] { EmptySide(pair, false, ref, venue); }
    var buy, sell := TryRouted(OneSide(pair, true), ref, venue), TryRouted(OneSide(pair, false), ref, venue);
    if buy.Kept? && sell.Kept? {
      BothUniform(ref, buy, sell);
    }
  }

  lemma BothUniform(ref: Reference, buy: PairOutcome, sell: PairOutcome)
    requires buy.Kept? && sell.Kept?
    ensures SuitsBoth(ref, buy, sell) <==>
      && (forall f :: f in buy.fills ==> UniformAt(f, true, ref.quotePrice, buy.basePrice))
      && (forall f :: f in sell.fills ==> UniformAt(f, false, ref.quotePrice, buy.basePrice))
  {
    hide UniformAt, FeeSuits;
    SuitsIsUniform(buy.fills, true, ref.quotePrice, buy.basePrice);
    SuitsIsUniform(sell.fills, false, ref.quotePrice, buy.basePrice);
  }

  lemma SuitsIsUniform(fills: seq<Fill>, buying: bool, q: nat, price: nat)
    ensures (forall f :: f in fills ==> UniformAt(f, buying, q, price)) <==>
      forall f :: f in fills ==> FeeSuits(f, buying, q, price)
  {
    forall f: Fill ensures UniformAt(f, buying, q, price) <==> FeeSuits(f, buying, q, price) {
    }
    hide UniformAt, FeeSuits;
  }

  lemma EmptySide(pair: Pair, buying: bool, ref: Reference, venue: Venue)
    requires AllSell(Side(pair, buying)) && Side(pair, buying) == []
    ensures TryRouted(OneSide(pair, buying), ref, venue).Skipped?
  {
  }

  /** Under the routing profile each side is routed alone, and the two are put together. */
  lemma RoutingExactly(pair: Pair, ref: Reference, venue: Venue) returns (buy: PairOutcome, sell: PairOutcome)
    requires DistinctEntries(pair.entries) && AllSell(pair.entries)
    ensures var o, buys, sells := RouteEverything(pair, ref, venue), RoutableAlone(pair, ref, venue, true),
        RoutableAlone(pair, ref, venue, false);
      && (buys ==> RoutesIt(pair, ref, venue, true, buy))
      && (sells ==> RoutesIt(pair, ref, venue, false, sell))
      && (o.Kept? <==> buys || sells)
      && (buys && !sells ==> o == buy)
      && (sells && !buys ==> o == sell)
      && (buys && sells ==>
            && buy.Kept? && sell.Kept? && |buy.venueCalls| == 1 == |sell.venueCalls|
            && BothSides(ref, buy, sell, o))
  {
    hide Side, TryRouted, RoutableAlone, RoutesIt, AllSell, RouteEverything, BothSides;
    AloneExactly(pair, ref, venue, true);
    AloneExactly(pair, ref, venue, false);
    EverythingIs(pair, ref, venue);
    buy, sell := TryRouted(OneSide(pair, true), ref, venue), TryRouted(OneSide(pair, false), ref, venue);
    if buy.Kept? { RoutedShape(pair, ref, venue, true, buy); }
    if sell.Kept? { RoutedShape(pair, ref, venue, false, sell); }
  }

  // ----- the pair

  /** Both tokens have a healthy oracle price. */
  predicate Priced(pair: Pair, oracle: map<Address, OracleRow>)
  {
    && pair.quote in oracle && oracle[pair.quote].healthy
    && pair.base in oracle && oracle[pair.base].healthy
  }

  function Prices(pair: Pair, oracle: map<Address, OracleRow>, maxDeviationBps: nat): Reference
    requires Priced(pair, oracle)
  {
    Reference(oracle[pair.quote].price, oracle[pair.base].price, maxDeviationBps)
  }

  /** What becomes of a priced pair under the netting profile: netted wherever that works, and otherwise its larger side
      routed, wherever that works. */
  ghost predicate NettingPath(pair: Pair, ref: Reference, venue: Venue, o: PairOutcome)
    requires ref.quotePrice > 0 && DistinctEntries(pair.entries)
  {
    if Nets(pair, ref, venue) then NettedAs(pair, ref, venue, o)
    else
      var buying := BuyersLarger(pair, ref);
      && (o.Kept? <==> Routable(pair, ref, venue, buying))
      && (o.Kept? ==> o.mode == Routed && RoutesIt(pair, ref, venue, buying, o))
  }

  /** And under the routing profile: never netted, each side routed wherever that works, both together wherever one
      price suits them. */
  ghost predicate RoutingPath(pair: Pair, ref: Reference, venue: Venue, o: PairOutcome)
  {
    var buys, sells := RoutableAlone(pair, ref, venue, true), RoutableAlone(pair, ref, venue, false);
    && (o.Kept? <==> buys || sells)
    && (o.Kept? ==> o.mode == Routed)
    && (buys && !sells ==> RoutesIt(pair, ref, venue, true, o))
    && (sells && !buys ==> RoutesIt(pair, ref, venue, false, o))
    && (buys && sells ==> exists buy, sell :: Together(pair, ref, venue, buy, sell, o))
  }

  ghost predicate Together(pair: Pair, ref: Reference, venue: Venue, buy: PairOutcome, sell: PairOutcome,
      o: PairOutcome)
  {
    && RoutesIt(pair, ref, venue, true, buy) && RoutesIt(pair, ref, venue, false, sell)
    && buy.Kept? && sell.Kept? && |buy.venueCalls| == 1 == |sell.venueCalls| && BothSides(ref, buy, sell, o)
  }

  /** Without two healthy prices the pair is skipped; otherwise the profile decides. */
  ghost predicate TakesPath(pair: Pair, oracle: map<Address, OracleRow>, maxDeviationBps: nat, venue: Venue,
      profile: Profile, o: PairOutcome)
    requires forall t :: t in oracle ==> oracle[t].price > 0
    requires DistinctEntries(pair.entries)
  {
    if !Priced(pair, oracle) then o.Skipped?
    else if profile == Netting then NettingPath(pair, Prices(pair, oracle, maxDeviationBps), venue, o)
    else RoutingPath(pair, Prices(pair, oracle, maxDeviationBps), venue, o)
  }

  /** The path every pair takes, exactly. */
  lemma PairExactly(pair: Pair, oracle: map<Address, OracleRow>, maxDeviationBps: nat, venue: Venue, profile: Profile)
    requires forall t :: t in oracle ==> oracle[t].price > 0
    requires Trades(pair) && AllSell(pair.entries)
    ensures TakesPath(pair, oracle, maxDeviationBps, venue, profile,
      SolvePair(pair, oracle, maxDeviationBps, venue, profile))
  {
    hide TryNetted, TryRouted, RouteEverything, NettingPath, RoutingPath, AllSell;
    if Priced(pair, oracle) {
      var ref := Prices(pair, oracle, maxDeviationBps);
      if profile == RoutingOnly {
        RoutingIsPath(pair, ref, venue);
      } else {
        NettingIsPath(pair, ref, venue);
      }
    }
  }

  lemma NettingIsPath(pair: Pair, ref: Reference, venue: Venue)
    requires ref.quotePrice > 0 && Trades(pair) && AllSell(pair.entries)
    ensures var netted := TryNetted(pair, ref, venue);
      NettingPath(pair, ref, venue, if netted.Kept? then netted else TryRouted(pair, ref, venue))
  {
    hide TryNetted, TryRouted, AllSell, Nets, NettedAs, Routable, RoutesIt, BuyersLarger, BaseOf;
    NettedExactly(pair, ref, venue);
    LargerExactly(pair, ref, venue);
    if TryRouted(pair, ref, venue).Kept? {
      RoutedShape(pair, ref, venue, BuyersLarger(pair, ref), TryRouted(pair, ref, venue));
    }
  }

  lemma RoutingIsPath(pair: Pair, ref: Reference, venue: Venue)
    requires DistinctEntries(pair.entries) && AllSell(pair.entries)
    ensures RoutingPath(pair, ref, venue, RouteEverything(pair, ref, venue))
  {
    hide RouteEverything, AllSell, RoutableAlone, RoutesIt;
    var buy, sell := RoutingExactly(pair, ref, venue);
    if RoutableAlone(pair, ref, venue, true) { RoutedShape(pair, ref, venue, true, buy); }
    if RoutableAlone(pair, ref, venue, false) { RoutedShape(pair, ref, venue, false, sell); }
    if RoutableAlone(pair, ref, venue, true) && RoutableAlone(pair, ref, venue, false) {
      assert Together(pair, ref, venue, buy, sell, RouteEverything(pair, ref, venue));
    }
  }
}
