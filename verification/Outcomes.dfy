/** Every pair the solver keeps, netted or routed, is one the verifier and the venue floor accept. */
module Outcomes {
  import opened Common
  import opened Solutions
  import opened Clearing
  import opened Allocation
  import opened Solve
  import SolverMath

  // ----- what a kept pair promises

  /** What a fill adds to the contract's balance of one token. */
  function FillNet(intents: seq<Intent>, token: Address): Fill -> int
  {
    (f: Fill) =>
      if f.index >= |intents| then 0
      else (if intents[f.index].sellToken == token then f.executedSell else 0)
           - (if intents[f.index].buyToken == token then f.executedBuy else 0)
  }

  function CallNet(token: Address): VenueCall -> int
  {
    (c: VenueCall) => (if c.tokenOut == token then c.minOut else 0) - (if c.tokenIn == token then c.amountIn else 0)
  }

  function SellsIn(intents: seq<Intent>, token: Address): Fill -> bool
  {
    (f: Fill) => f.index < |intents| && intents[f.index].sellToken == token
  }

  function Other(pair: Pair, token: Address): Address
  {
    if token == pair.quote then pair.base else pair.quote
  }

  /** A fill of one of the pair's intents that passes the verifier's checks at these prices. */
  predicate FillSound(f: Fill, base: Address, quote: Address, intents: seq<Intent>, q: nat, b: nat)
  {
    && f.index < |intents|
    && BaseOf(intents[f.index], quote) == Some(base)
    && Refusal(intents[f.index], f, intents[f.index].sellToken == quote, q, b).None?
  }

  /** In one direction, the baselines claimed reach the venue's quote on the whole volume. */
  predicate FloorMet(fills: seq<Fill>, m: map<nat, nat>, intents: seq<Intent>, venue: Venue, tokenIn: Address,
      tokenOut: Address)
  {
    var direction := Filter(fills, SellsIn(intents, tokenIn));
    direction != [] ==>
      && venue(tokenIn, tokenOut, Total(direction)).Some?
      && SumBy(direction, BaselineOf(m)) >= venue(tokenIn, tokenOut, Total(direction)).value
  }

  function FillIndices(fills: seq<Fill>): set<nat>
  {
    if fills == [] then {} else FillIndices(fills[..|fills| - 1]) + {fills[|fills| - 1].index}
  }

  ghost predicate BaselinesFit(fills: seq<Fill>, m: map<nat, nat>)
  {
    && m.Keys == FillIndices(fills)
    && forall f :: f in fills ==> f.index in m && m[f.index] <= f.executedBuy
  }

  ghost predicate Sound(o: PairOutcome, base: Address, quote: Address, intents: seq<Intent>, ref: Reference,
      venue: Venue)
    requires o.Kept?
  {
    && o.base == base && o.fills != [] && DistinctFills(o.fills)
    && (forall f :: f in o.fills ==> FillSound(f, base, quote, intents, ref.quotePrice, o.basePrice))
    && BaselinesFit(o.fills, o.baselines)
    && SolverMath.WithinBand(o.basePrice, ref.basePrice, ref.maxDeviationBps)
    && (forall c :: c in o.venueCalls ==>
      (c.tokenIn == base && c.tokenOut == quote) || (c.tokenIn == quote && c.tokenOut == base))
    && (forall t :: SumBy(o.fills, FillNet(intents, t)) + SumBy(o.venueCalls, CallNet(t)) >= 0)
    && FloorMet(o.fills, o.baselines, intents, venue, quote, base)
    && FloorMet(o.fills, o.baselines, intents, venue, base, quote)
  }

  // ----- small facts

  lemma {:induction false} FilterSame<T>(xs: seq<T>, p: T -> bool, q: T -> bool)
    requires forall x :: x in xs ==> p(x) == q(x)
    ensures Filter(xs, p) == Filter(xs, q)
  {
    if xs != [] {
      FilterSame(xs[..|xs| - 1], p, q);
    }
  }

  lemma {:induction false} FillsFilterDistinct(fills: seq<Fill>, p: Fill -> bool)
    requires DistinctFills(fills)
    ensures DistinctFills(Filter(fills, p))
  {
    if fills != [] {
      var init, last := fills[..|fills| - 1], fills[|fills| - 1];
      FillsFilterDistinct(init, p);
      forall k | 0 <= k < |Filter(init, p)| ensures Filter(init, p)[k].index != last.index {
        assert Filter(init, p)[k] in init;
      }
    }
  }

  lemma {:induction false} FillIndicesExact(fills: seq<Fill>, index: nat)
    ensures index in FillIndices(fills) <==> exists f :: f in fills && f.index == index
  {
    if fills != [] {
      var init, last := fills[..|fills| - 1], fills[|fills| - 1];
      FillIndicesExact(init, index);
      assert forall f :: f in fills <==> f in init || f == last;
    }
  }

  /** A sum over a list is the sum of the values listed beside it. */
  lemma {:induction false} SumByValues<T>(xs: seq<T>, f: T -> int, values: seq<int>)
    requires |xs| == |values|
    requires forall k :: 0 <= k < |xs| ==> f(xs[k]) == values[k]
    ensures SumBy(xs, f) == SolverMath.Total(values)
  {
    if xs != [] {
      SumByValues(xs[..|xs| - 1], f, values[..|values| - 1]);
    }
  }

  /** SetAll writes each fill's own value and nothing else. */
  lemma {:induction false} SetAllFacts(m: map<nat, nat>, fills: seq<Fill>, values: seq<nat>)
    requires |fills| == |values|
    requires DistinctFills(fills)
    ensures var r := SetAll(m, fills, values);
      && r.Keys == m.Keys + FillIndices(fills)
      && (forall k :: 0 <= k < |fills| ==> fills[k].index in r && r[fills[k].index] == values[k])
      && (forall i :: i in m && i !in FillIndices(fills) ==> r[i] == m[i])
  {
    if fills != [] {
      SetAllFacts(m, fills[..|fills| - 1], values[..|values| - 1]);
    }
  }

  lemma FillHere(fills: seq<Fill>)
    ensures forall f :: f in fills ==> f.index in FillIndices(fills)
  {
    forall f | f in fills ensures f.index in FillIndices(fills) {
      FillIndicesExact(fills, f.index);
    }
  }

  // ----- baselines

  lemma {:induction false} OwnBaselinesFit(pair: Pair, fills: seq<Fill>, venue: Venue)
    requires Indexed(pair, fills) && DistinctFills(fills)
    requires OwnBaselines(pair, fills, venue).Ok?
    ensures BaselinesFit(fills, OwnBaselines(pair, fills, venue).value)
  {
    if fills != [] {
      var init, f := fills[..|fills| - 1], fills[|fills| - 1];
      OwnBaselinesFit(pair, init, venue);
      assert forall g :: g in fills <==> g in init || g == f;
      forall g | g in init ensures g.index != f.index {
        var k :| 0 <= k < |init| && init[k] == g;
        assert fills[k].index != f.index;
      }
    }
  }

  /** The direction selling `token` has a venue quote on its whole volume, and its baselines reach it. */
  ghost predicate Reached(pair: Pair, fills: seq<Fill>, venue: Venue, token: Address, m: map<nat, nat>)
    requires Indexed(pair, fills)
  {
    var direction := Filter(fills, Selling(pair, token));
    && direction != []
    && direction[0] in direction
    && var buyToken := IntentAt(pair.entries, direction[0].index).value.buyToken;
       venue(token, buyToken, Total(direction)).Some?
         && SumBy(direction, BaselineOf(m)) >= venue(token, buyToken, Total(direction)).value
  }

  /** Lifting one direction keeps every baseline within its fill and reaches the venue's quote on the direction. */
  lemma LiftDirectionFits(pair: Pair, fills: seq<Fill>, venue: Venue, token: Address, m: map<nat, nat>)
    requires Indexed(pair, fills) && DistinctFills(fills)
    requires Filter(fills, Selling(pair, token)) != []
    requires BaselinesFit(fills, m)
    requires LiftDirection(pair, fills, venue, token, m).Ok?
    ensures var r, direction := LiftDirection(pair, fills, venue, token, m).value, Filter(fills, Selling(pair, token));
      && BaselinesFit(fills, r)
      && (forall f :: f in fills && f !in direction ==> r[f.index] == m[f.index])
      && Reached(pair, fills, venue, token, r)
  {
    hide SolverMath.Raised, SolverMath.Total, Filter, SetAll, BaselinesFit, DistinctFills, IntentAt, ExecutedBuys,
      Baselines, Naturals;
    var direction := Filter(fills, Selling(pair, token));
    assert direction[0] in direction;
    var buyToken := IntentAt(pair.entries, direction[0].index).value.buyToken;
    var floor := venue(token, buyToken, Total(direction)).value;
    FillsFilterDistinct(fills, Selling(pair, token));
    SolverMath.RaisedMeetsFloor(Baselines(m, direction), ExecutedBuys(direction), floor);
    var raised := SolverMath.Raised(Baselines(m, direction), ExecutedBuys(direction), floor).value;
    SetDirection(fills, direction, m, raised);
  }

  lemma SetDirection(fills: seq<Fill>, direction: seq<Fill>, m: map<nat, nat>, raised: seq<int>)
    requires DistinctFills(fills) && DistinctFills(direction)
    requires forall f :: f in direction ==> f in fills
    requires BaselinesFit(fills, m)
    requires |raised| == |direction|
    requires forall k :: 0 <= k < |direction| ==>
      Baselines(m, direction)[k] <= raised[k] <= Max(Baselines(m, direction)[k], ExecutedBuys(direction)[k])
    ensures var r := SetAll(m, direction, Naturals(raised));
      && BaselinesFit(fills, r)
      && (forall f :: f in fills && f !in direction ==> r[f.index] == m[f.index])
      && SumBy(direction, BaselineOf(r)) == SolverMath.Total(raised)
  {
    var r := SetAll(m, direction, Naturals(raised));
    SetAllFacts(m, direction, Naturals(raised));
    FillHere(fills);
    forall i | i in FillIndices(direction) ensures i in FillIndices(fills) {
      FillIndicesExact(direction, i);
      FillIndicesExact(fills, i);
    }
    forall f | f in fills && f !in direction ensures f.index !in FillIndices(direction) {
      FillIndicesExact(direction, f.index);
      if f.index in FillIndices(direction) {
        var g :| g in direction && g.index == f.index;
        SameFill(fills, f, g);
      }
    }
    forall f | f in direction ensures r[f.index] <= f.executedBuy {
      var k :| 0 <= k < |direction| && direction[k] == f;
      assert r[direction[k].index] == Naturals(raised)[k];
    }
    SumByValues(direction, BaselineOf(r), raised);
  }

  lemma SameFill(fills: seq<Fill>, f: Fill, g: Fill)
    requires DistinctFills(fills)
    requires f in fills && g in fills
    ensures f.index == g.index ==> f == g
  {
    var j :| 0 <= j < |fills| && fills[j] == f;
    var k :| 0 <= k < |fills| && fills[k] == g;
  }

  lemma {:induction false} LiftAllFits(pair: Pair, fills: seq<Fill>, venue: Venue, tokens: seq<Address>,
      m: map<nat, nat>)
    requires Indexed(pair, fills) && DistinctFills(fills)
    requires Distinct(tokens)
    requires forall t :: t in tokens ==> Filter(fills, Selling(pair, t)) != []
    requires BaselinesFit(fills, m)
    requires LiftAll(pair, fills, venue, tokens, m).Ok?
    ensures BaselinesFit(fills, LiftAll(pair, fills, venue, tokens, m).value)
    ensures forall t :: t in tokens ==> Reached(pair, fills, venue, t, LiftAll(pair, fills, venue, tokens, m).value)
  {
    hide Reached, BaselinesFit, DistinctFills, Indexed, Filter, LiftDirection;
    if tokens != [] {
      var init, last := tokens[..|tokens| - 1], tokens[|tokens| - 1];
      assert last in tokens;
      LiftAllFits(pair, fills, venue, init, m);
      var before, after := LiftAll(pair, fills, venue, init, m).value, LiftAll(pair, fills, venue, tokens, m).value;
      LiftDirectionFits(pair, fills, venue, last, before);
      forall t | t in init ensures Reached(pair, fills, venue, t, after) {
        assert t != last;
        ReachedStays(pair, fills, venue, t, last, before, after);
      }
    }
  }

  /** Lifting another direction leaves this one's baselines alone. */
  lemma ReachedStays(pair: Pair, fills: seq<Fill>, venue: Venue, token: Address, lifted: Address,
      before: map<nat, nat>, after: map<nat, nat>)
    requires Indexed(pair, fills)
    requires token != lifted
    requires BaselinesFit(fills, before) && BaselinesFit(fills, after)
    requires Reached(pair, fills, venue, token, before)
    requires forall f :: f in fills && f !in Filter(fills, Selling(pair, lifted)) ==> after[f.index] == before[f.index]
    ensures Reached(pair, fills, venue, token, after)
  {
    var direction := Filter(fills, Selling(pair, token));
    forall f | f in direction ensures BaselineOf(after)(f) == BaselineOf(before)(f) {
      assert f in fills && !Selling(pair, lifted)(f);
    }
    SumByEq(direction, BaselineOf(after), BaselineOf(before));
  }

  lemma LiftedFits(pair: Pair, fills: seq<Fill>, venue: Venue)
    requires Indexed(pair, fills) && DistinctFills(fills)
    requires LiftedBaselines(pair, fills, venue).Ok?
    ensures var r := LiftedBaselines(pair, fills, venue).value;
      && BaselinesFit(fills, r)
      && forall t :: Filter(fills, Selling(pair, t)) != [] ==> Reached(pair, fills, venue, t, r)
  {
    SellTokensSell(pair, fills);
    OwnBaselinesFit(pair, fills, venue);
    LiftAllFits(pair, fills, venue, SellTokens(pair, fills), OwnBaselines(pair, fills, venue).value);
  }

  // ----- a netted pair

  /** An allocation's fills pass the verifier's checks at the allocation's own prices. */
  lemma AllocatedFillsSound(pair: Pair, intents: seq<Intent>, price: nat, ref: Reference)
    requires ref.quotePrice > 0
    requires PairOk(pair, intents)
    ensures var a := Allocate(pair, price, ref, 0);
      && DistinctFills(a.fills)
      && (forall f :: f in a.fills ==>
            FillSound(f, pair.base, pair.quote, intents, ref.quotePrice, a.basePrice)
              && IntentAt(pair.entries, f.index) == Some(intents[f.index]))
      && (a.fills != [] ==> a.basePrice == UnitPrice(price, ref))
  {
    var b := UnitPrice(price, ref);
    if b > 0 {
      FillsFine(pair, price, ref.quotePrice, b, 0);
      var fills := Allocate(pair, price, ref, 0).fills;
      hide Final, Fills, UnitPrice;
      forall f | f in fills
        ensures FillSound(f, pair.base, pair.quote, intents, ref.quotePrice, b)
          && IntentAt(pair.entries, f.index) == Some(intents[f.index])
      {
        var e :| e in pair.entries && e.index == f.index
          && Refusal(e.intent, f, e.intent.sellToken == pair.quote, ref.quotePrice, b).None?;
        IntentAtEntry(pair.entries, e);
      }
    }
  }

  /** Per token, the pair's own residual plus its venue call never leaves the contract short. */
  lemma NettedCovers(pair: Pair, intents: seq<Intent>, fills: seq<Fill>, minOut: VenueNeed -> nat, t: Address)
    requires PairOk(pair, intents)
    requires forall f :: f in fills ==>
      f.index < |intents| && BaseOf(intents[f.index], pair.quote) == Some(pair.base)
        && IntentAt(pair.entries, f.index) == Some(intents[f.index])
    requires Route(pair, fills, minOut).Ok?
    ensures SumBy(fills, FillNet(intents, t)) + SumBy(Route(pair, fills, minOut).value, CallNet(t)) >= 0
  {
    RouteCovers(pair, fills, minOut);
    var calls := Route(pair, fills, minOut).value;
    if t == pair.base {
      SumByEq(fills, FillNet(intents, t), BaseNet(pair));
    } else if t == pair.quote {
      SumByEq(fills, FillNet(intents, t), QuoteNet(pair));
    } else {
      SumByNonNegative(fills, FillNet(intents, t));
    }
    hide Route;
    if |calls| == 1 {
      assert calls[..0] == [];
      assert SumBy(calls, CallNet(t)) == CallNet(t)(calls[0]);
    }
  }

  lemma ReachedFloor(pair: Pair, intents: seq<Intent>, fills: seq<Fill>, venue: Venue, token: Address, m: map<nat, nat>)
    requires Indexed(pair, fills)
    requires token == pair.quote || token == pair.base
    requires pair.base != pair.quote
    requires forall f :: f in fills ==>
      f.index < |intents| && BaseOf(intents[f.index], pair.quote) == Some(pair.base)
        && IntentAt(pair.entries, f.index) == Some(intents[f.index])
    requires Filter(fills, Selling(pair, token)) != [] ==> Reached(pair, fills, venue, token, m)
    ensures FloorMet(fills, m, intents, venue, token, Other(pair, token))
  {
    FilterSame(fills, Selling(pair, token), SellsIn(intents, token));
    var direction := Filter(fills, Selling(pair, token));
    if direction != [] {
      assert direction[0] in direction;
    }
  }

  /** A kept netted pair is its clearing's allocation, with lifted baselines and the routed residual. */
  lemma NettedShape(pair: Pair, ref: Reference, venue: Venue)
    requires ref.quotePrice > 0
    requires DistinctEntries(pair.entries)
    requires TryNetted(pair, ref, venue).Kept?
    ensures Clear(pair, ref).Some?
    ensures var o, a := TryNetted(pair, ref, venue), Allocate(pair, Clear(pair, ref).value.price, ref, 0);
      && o.base == pair.base && o.fills == a.fills != [] && o.basePrice == a.basePrice
      && Indexed(pair, a.fills)
      && LiftedBaselines(pair, a.fills, venue) == Ok(o.baselines)
      && Route(pair, a.fills, VenueOut(venue)) == Ok(o.venueCalls)
  {
    hide Clear, Allocate, LiftedBaselines, Route;
    AllocationIndexed(pair, Clear(pair, ref).value.price, ref, 0);
  }

  lemma NettedInBand(pair: Pair, ref: Reference)
    requires ref.quotePrice > 0
    requires Clear(pair, ref).Some?
    ensures SolverMath.WithinBand(UnitPrice(Clear(pair, ref).value.price, ref), ref.basePrice, ref.maxDeviationBps)
  {
    ClearSound(pair, ref);
    hide Clear, Evaluate;
  }

  /** A kept netted pair is sound. */
  lemma NettedSound(pair: Pair, intents: seq<Intent>, ref: Reference, venue: Venue)
    requires ref.quotePrice > 0
    requires PairOk(pair, intents)
    requires TryNetted(pair, ref, venue).Kept?
    ensures Sound(TryNetted(pair, ref, venue), pair.base, pair.quote, intents, ref, venue)
  {
    hide Clear, Allocate, LiftedBaselines, Route, TryNetted;
    NettedShape(pair, ref, venue);
    var o := TryNetted(pair, ref, venue);
    var price := Clear(pair, ref).value.price;
    NettedInBand(pair, ref);
    AllocatedFillsSound(pair, intents, price, ref);
    NettedParts(pair, intents, ref, venue, o);
  }

  lemma NettedParts(pair: Pair, intents: seq<Intent>, ref: Reference, venue: Venue, o: PairOutcome)
    requires PairOk(pair, intents)
    requires o.Kept? && o.base == pair.base && o.fills != [] && DistinctFills(o.fills)
    requires forall f :: f in o.fills ==>
      FillSound(f, pair.base, pair.quote, intents, ref.quotePrice, o.basePrice)
        && IntentAt(pair.entries, f.index) == Some(intents[f.index])
    requires SolverMath.WithinBand(o.basePrice, ref.basePrice, ref.maxDeviationBps)
    requires LiftedBaselines(pair, o.fills, venue) == Ok(o.baselines)
    requires Route(pair, o.fills, VenueOut(venue)) == Ok(o.venueCalls)
    ensures Sound(o, pair.base, pair.quote, intents, ref, venue)
  {
    hide LiftedBaselines, Refusal, Route, FloorMet, BaselinesFit, SolverMath.WithinBand, IntentAt;
    LiftedFloors(pair, intents, o.fills, venue);
    RouteTokens(pair, o.fills, VenueOut(venue));
    forall t ensures SumBy(o.fills, FillNet(intents, t)) + SumBy(o.venueCalls, CallNet(t)) >= 0 {
      NettedCovers(pair, intents, o.fills, VenueOut(venue), t);
    }
  }

  lemma RouteTokens(pair: Pair, fills: seq<Fill>, minOut: VenueNeed -> nat)
    requires Indexed(pair, fills)
    requires Route(pair, fills, minOut).Ok?
    ensures forall c :: c in Route(pair, fills, minOut).value ==>
      (c.tokenIn == pair.base && c.tokenOut == pair.quote) || (c.tokenIn == pair.quote && c.tokenOut == pair.base)
  {
    hide ResidualOf;
  }

  lemma LiftedFloors(pair: Pair, intents: seq<Intent>, fills: seq<Fill>, venue: Venue)
    requires pair.base != pair.quote
    requires DistinctFills(fills)
    requires forall f :: f in fills ==>
      f.index < |intents| && BaseOf(intents[f.index], pair.quote) == Some(pair.base)
        && IntentAt(pair.entries, f.index) == Some(intents[f.index])
    requires LiftedBaselines(pair, fills, venue).Ok?
    ensures var m := LiftedBaselines(pair, fills, venue).value;
      && BaselinesFit(fills, m)
      && FloorMet(fills, m, intents, venue, pair.quote, pair.base)
      && FloorMet(fills, m, intents, venue, pair.base, pair.quote)
  {
    LiftedFits(pair, fills, venue);
    var m := LiftedBaselines(pair, fills, venue).value;
    hide LiftedBaselines, Reached, FloorMet, Filter;
    ReachedFloor(pair, intents, fills, venue, pair.quote, m);
    ReachedFloor(pair, intents, fills, venue, pair.base, m);
  }

  // ----- a routed side

  /** Entries of the pair that all sell the same token. */
  ghost predicate OneSide(side: seq<BookEntry>, base: Address, quote: Address, intents: seq<Intent>, buying: bool)
  {
    && base != quote
    && DistinctEntries(side) && AllSell(side)
    && forall e :: e in side ==>
         && e.index < |intents| && intents[e.index] == e.intent
         && BaseOf(e.intent, quote) == Some(base)
         && (e.intent.sellToken == quote) == buying
  }

  lemma {:induction false} EntriesFilterDistinct(es: seq<BookEntry>, p: BookEntry -> bool)
    requires DistinctEntries(es)
    ensures DistinctEntries(Filter(es, p))
  {
    if es != [] {
      var init, last := es[..|es| - 1], es[|es| - 1];
      EntriesFilterDistinct(init, p);
      forall k | 0 <= k < |Filter(init, p)| ensures Filter(init, p)[k].index != last.index {
        assert Filter(init, p)[k] in init;
      }
    }
  }

  lemma OneSideFilter(side: seq<BookEntry>, p: BookEntry -> bool, base: Address, quote: Address, intents: seq<Intent>,
      buying: bool)
    requires OneSide(side, base, quote, intents, buying)
    ensures OneSide(Filter(side, p), base, quote, intents, buying)
  {
    EntriesFilterDistinct(side, p);
  }

  /** The side the venue call carries, after the drops, and what came back for it. */
  ghost predicate RoutedWith(o: PairOutcome, pair: Pair, side: seq<BookEntry>, buying: bool, ref: Reference,
      venue: Venue, out: nat)
    requires AllSell(side) && side != []
  {
    var tokenIn, tokenOut := if buying then pair.quote else pair.base, if buying then pair.base else pair.quote;
    var fills := SplitOut(side, out);
    && venue(tokenIn, tokenOut, SideTotal(side)) == Some(out)
    && FirstBroken(side, fills).None?
    && o == Kept(pair.base, Routed, fills, BuyMap(fills), WorstImplied(fills, buying, ref.quotePrice),
      [VenueCall(tokenIn, tokenOut, SideTotal(side), out)])
    && SolverMath.WithinBand(o.basePrice, ref.basePrice, ref.maxDeviationBps)
    && forall f :: f in fills ==> UniformAt(f, buying, ref.quotePrice, o.basePrice)
  }

  /** A routed side is kept for some part of it, quoted whole. */
  lemma {:induction false} RouteSideShape(pair: Pair, side: seq<BookEntry>, buying: bool, ref: Reference, venue: Venue,
      intents: seq<Intent>)
    returns (kept: seq<BookEntry>, out: nat)
    requires OneSide(side, pair.base, pair.quote, intents, buying)
    requires RouteSide(pair, side, buying, ref, venue).Kept?
    ensures OneSide(kept, pair.base, pair.quote, intents, buying) && kept != []
    ensures forall e :: e in kept ==> e in side
    ensures RoutedWith(RouteSide(pair, side, buying, ref, venue), pair, kept, buying, ref, venue, out)
    decreases |side|
  {
    var tokenIn, tokenOut := if buying then pair.quote else pair.base, if buying then pair.base else pair.quote;
    out := venue(tokenIn, tokenOut, SideTotal(side)).value;
    var fills := SplitOut(side, out);
    match FirstBroken(side, fills)
    case Some(e) =>
      EntriesShorter(side, OtherEntry(e.index), e);
      OneSideFilter(side, OtherEntry(e.index), pair.base, pair.quote, intents, buying);
      kept, out := RouteSideShape(pair, Filter(side, OtherEntry(e.index)), buying, ref, venue, intents);
    case None =>
      kept := side;
  }

  lemma {:induction false} SellsSum(side: seq<BookEntry>, fills: seq<Fill>)
    requires |side| == |fills|
    requires forall k :: 0 <= k < |side| ==> fills[k].executedSell == side[k].intent.sellAmount
    ensures SumBy(fills, SellOf()) == SumBy(side, SellAmountOf())
  {
    if side != [] {
      SellsSum(side[..|side| - 1], fills[..|fills| - 1]);
    }
  }

  lemma SplitDistinct(side: seq<BookEntry>, out: nat)
    requires side != [] && AllSell(side) && DistinctEntries(side)
    ensures DistinctFills(SplitOut(side, out))
  {
  }

  /** A fill of a routed side sells its whole intent, gets something, and respects its limit. */
  lemma RoutedFillSound(o: PairOutcome, pair: Pair, side: seq<BookEntry>, buying: bool, ref: Reference, venue: Venue,
      out: nat, intents: seq<Intent>, k: nat)
    requires OneSide(side, pair.base, pair.quote, intents, buying) && side != []
    requires RoutedWith(o, pair, side, buying, ref, venue, out)
    requires k < |side|
    ensures FillSound(o.fills[k], pair.base, pair.quote, intents, ref.quotePrice, o.basePrice)
    ensures o.fills[k].index == side[k].index && (intents[side[k].index].sellToken == pair.quote) == buying
  {
    assert side[k] in side && o.fills[k] in o.fills;
    assert !Broken(side[k].intent, o.fills[k]);
    assert UniformAt(o.fills[k], buying, ref.quotePrice, o.basePrice);
  }

  lemma BuyMapFits(fills: seq<Fill>)
    requires DistinctFills(fills)
    ensures BaselinesFit(fills, BuyMap(fills))
    ensures SumBy(fills, BaselineOf(BuyMap(fills))) == SumBy(fills, BuyOf())
  {
    SetAllFacts(map[], fills, ExecutedBuys(fills));
    forall f | f in fills ensures f.index in BuyMap(fills) && BuyMap(fills)[f.index] == f.executedBuy {
      var k :| 0 <= k < |fills| && fills[k] == f;
      assert BuyMap(fills)[fills[k].index] == ExecutedBuys(fills)[k];
    }
    SumByEq(fills, BaselineOf(BuyMap(fills)), BuyOf());
  }

  /** Fills of the pair's intents that all sell the quote, or all sell the base. */
  ghost predicate SideFills(fills: seq<Fill>, base: Address, quote: Address, intents: seq<Intent>, buying: bool)
  {
    forall f :: f in fills ==>
      && f.index < |intents|
      && BaseOf(intents[f.index], quote) == Some(base)
      && (intents[f.index].sellToken == quote) == buying
  }

  /** A kept outcome whose fills all sell one token. */
  ghost predicate SoundSide(o: PairOutcome, base: Address, quote: Address, intents: seq<Intent>, ref: Reference,
      venue: Venue, buying: bool)
    requires o.Kept?
  {
    Sound(o, base, quote, intents, ref, venue) && SideFills(o.fills, base, quote, intents, buying)
  }

  /** Sending the whole side in and handing out all that came back leaves nothing short. */
  lemma RoutedNet(fills: seq<Fill>, base: Address, quote: Address, intents: seq<Intent>, buying: bool, call: VenueCall,
      t: Address)
    requires base != quote
    requires SideFills(fills, base, quote, intents, buying)
    requires call.tokenIn == (if buying then quote else base) && call.tokenOut == (if buying then base else quote)
    requires call.amountIn == SumBy(fills, SellOf()) && call.minOut == SumBy(fills, BuyOf())
    ensures SumBy(fills, FillNet(intents, t)) + SumBy([call], CallNet(t)) >= 0
  {
    assert [call][..0] == [];
    assert SumBy([call], CallNet(t)) == CallNet(t)(call);
    if t == call.tokenIn {
      SumByEq(fills, FillNet(intents, t), SellOf());
    } else if t == call.tokenOut {
      SumByLinear(fills, BuyOf(), -1, BuyOf(), 0, FillNet(intents, t));
    } else {
      SumByNonNegative(fills, FillNet(intents, t));
    }
  }

  /** The baselines are the executed buys, which sum to the venue's quote on the whole side. */
  lemma RoutedFloors(fills: seq<Fill>, base: Address, quote: Address, intents: seq<Intent>, buying: bool,
      m: map<nat, nat>, venue: Venue)
    requires base != quote
    requires SideFills(fills, base, quote, intents, buying)
    requires SumBy(fills, BaselineOf(m)) == SumBy(fills, BuyOf())
    requires venue(if buying then quote else base, if buying then base else quote, Total(fills)).Some?
    requires SumBy(fills, BuyOf()) ==
      venue(if buying then quote else base, if buying then base else quote, Total(fills)).value
    ensures FloorMet(fills, m, intents, venue, quote, base)
    ensures FloorMet(fills, m, intents, venue, base, quote)
  {
    FilterAll(fills, SellsIn(intents, if buying then quote else base));
    NoneSelling(fills, base, quote, intents, buying);
  }

  lemma NoneSelling(fills: seq<Fill>, base: Address, quote: Address, intents: seq<Intent>, buying: bool)
    requires base != quote
    requires SideFills(fills, base, quote, intents, buying)
    ensures Filter(fills, SellsIn(intents, if buying then base else quote)) == []
  {
    FilterNone(fills, SellsIn(intents, if buying then base else quote));
  }

  lemma RoutedFills(o: PairOutcome, pair: Pair, side: seq<BookEntry>, buying: bool, ref: Reference, venue: Venue,
      out: nat, intents: seq<Intent>)
    requires OneSide(side, pair.base, pair.quote, intents, buying) && side != []
    requires RoutedWith(o, pair, side, buying, ref, venue, out)
    ensures forall f :: f in o.fills ==> FillSound(f, pair.base, pair.quote, intents, ref.quotePrice, o.basePrice)
    ensures SideFills(o.fills, pair.base, pair.quote, intents, buying)
    ensures DistinctFills(o.fills) && o.fills != []
    ensures Total(o.fills) == SumBy(o.fills, SellOf()) == SideTotal(side) && SumBy(o.fills, BuyOf()) == out
  {
    forall f | f in o.fills
      ensures FillSound(f, pair.base, pair.quote, intents, ref.quotePrice, o.basePrice)
        && (intents[f.index].sellToken == pair.quote) == buying
    {
      var k :| 0 <= k < |o.fills| && o.fills[k] == f;
      RoutedFillSound(o, pair, side, buying, ref, venue, out, intents, k);
    }
    SellsSum(side, o.fills);
    SplitDistinct(side, out);
  }

  /** A routed side is sound. */
  lemma RouteSideSound(pair: Pair, side: seq<BookEntry>, buying: bool, ref: Reference, venue: Venue,
      intents: seq<Intent>)
    requires OneSide(side, pair.base, pair.quote, intents, buying)
    requires RouteSide(pair, side, buying, ref, venue).Kept?
    ensures SoundSide(RouteSide(pair, side, buying, ref, venue), pair.base, pair.quote, intents, ref, venue, buying)
  {
    var kept, out := RouteSideShape(pair, side, buying, ref, venue, intents);
    RoutedWithSound(RouteSide(pair, side, buying, ref, venue), pair, kept, buying, ref, venue, out, intents);
  }

  lemma RoutedWithSound(o: PairOutcome, pair: Pair, side: seq<BookEntry>, buying: bool, ref: Reference, venue: Venue,
      out: nat, intents: seq<Intent>)
    requires OneSide(side, pair.base, pair.quote, intents, buying) && side != []
    requires RoutedWith(o, pair, side, buying, ref, venue, out)
    ensures SoundSide(o, pair.base, pair.quote, intents, ref, venue, buying)
  {
    hide SplitOut, WorstImplied, FirstBroken, FillSound, SideTotal, FloorMet, BaselinesFit, UniformAt,
      SolverMath.WithinBand, BuyMap;
    RoutedFills(o, pair, side, buying, ref, venue, out, intents);
    RoutedParts(o.fills, pair.base, pair.quote, intents, buying, venue, o.venueCalls[0]);
  }

  /** What the fills of one call promise together: baselines, net amounts, floors. */
  lemma RoutedParts(fills: seq<Fill>, base: Address, quote: Address, intents: seq<Intent>, buying: bool, venue: Venue,
      call: VenueCall)
    requires base != quote && DistinctFills(fills)
    requires SideFills(fills, base, quote, intents, buying)
    requires call.tokenIn == (if buying then quote else base) && call.tokenOut == (if buying then base else quote)
    requires call.amountIn == Total(fills) == SumBy(fills, SellOf()) && call.minOut == SumBy(fills, BuyOf())
    requires venue(call.tokenIn, call.tokenOut, call.amountIn) == Some(call.minOut)
    ensures BaselinesFit(fills, BuyMap(fills))
    ensures forall t :: SumBy(fills, FillNet(intents, t)) + SumBy([call], CallNet(t)) >= 0
    ensures FloorMet(fills, BuyMap(fills), intents, venue, quote, base)
      && FloorMet(fills, BuyMap(fills), intents, venue, base, quote)
  {
    BuyMapFits(fills);
    hide BuyMap, FloorMet, BaselinesFit, SumBy;
    RoutedFloors(fills, base, quote, intents, buying, BuyMap(fills), venue);
    forall t ensures SumBy(fills, FillNet(intents, t)) + SumBy([call], CallNet(t)) >= 0 {
      RoutedNet(fills, base, quote, intents, buying, call, t);
    }
  }

  lemma TryRoutedSound(pair: Pair, intents: seq<Intent>, ref: Reference, venue: Venue)
    requires PairOk(pair, intents) && AllSell(pair.entries)
    requires TryRouted(pair, ref, venue).Kept?
    ensures exists buying :: SoundSide(TryRouted(pair, ref, venue), pair.base, pair.quote, intents, ref, venue, buying)
    ensures Filter(pair.entries, SellsBase(pair.quote)) == [] ==>
      SoundSide(TryRouted(pair, ref, venue), pair.base, pair.quote, intents, ref, venue, true)
    ensures Filter(pair.entries, SellsQuote(pair.quote)) == [] ==>
      SoundSide(TryRouted(pair, ref, venue), pair.base, pair.quote, intents, ref, venue, false)
  {
    var buys, sells := Filter(pair.entries, SellsQuote(pair.quote)), Filter(pair.entries, SellsBase(pair.quote));
    var buying := SumBy(buys, UsdOf(ref.quotePrice)) >= SumBy(sells, UsdOf(ref.basePrice));
    EntriesFilterDistinct(pair.entries, SellsQuote(pair.quote));
    EntriesFilterDistinct(pair.entries, SellsBase(pair.quote));
    hide Sound, Filter, RouteSide;
    RouteSideSound(pair, if buying then buys else sells, buying, ref, venue, intents);
  }

  /** A part of a well-formed pair is well formed. */
  lemma PartOk(pair: Pair, p: BookEntry -> bool, intents: seq<Intent>)
    requires PairOk(pair, intents) && AllSell(pair.entries)
    ensures PairOk(pair.(entries := Filter(pair.entries, p)), intents) && AllSell(Filter(pair.entries, p))
  {
    EntriesFilterDistinct(pair.entries, p);
  }

  /** Both directions routed on their own, under one price both accept, is sound. */
  lemma CombinedSound(buy: PairOutcome, sell: PairOutcome, pair: Pair, intents: seq<Intent>, ref: Reference,
      venue: Venue)
    requires pair.base != pair.quote
    requires buy.Kept? && sell.Kept?
    requires SoundSide(buy, pair.base, pair.quote, intents, ref, venue, true)
    requires SoundSide(sell, pair.base, pair.quote, intents, ref, venue, false)
    requires forall f :: f in sell.fills ==> UniformAt(f, false, ref.quotePrice, buy.basePrice)
    ensures Sound(Kept(pair.base, Routed, buy.fills + sell.fills, buy.baselines + sell.baselines, buy.basePrice,
      buy.venueCalls + sell.venueCalls),
      pair.base, pair.quote, intents, ref, venue)
  {
    var fills, m, calls := buy.fills + sell.fills, buy.baselines + sell.baselines, buy.venueCalls + sell.venueCalls;
    CombinedFills(buy, sell, pair.base, pair.quote, intents, ref, venue);
    CombinedBaselines(buy.fills, sell.fills, buy.baselines, sell.baselines);
    CombinedFloors(buy, sell, pair.base, pair.quote, intents, ref, venue);
    forall t ensures SumBy(fills, FillNet(intents, t)) + SumBy(calls, CallNet(t)) >= 0 {
      SumByAppend(buy.fills, sell.fills, FillNet(intents, t));
      SumByAppend(buy.venueCalls, sell.venueCalls, CallNet(t));
    }
    hide FloorMet, FillSound;
  }

  lemma CombinedFills(buy: PairOutcome, sell: PairOutcome, base: Address, quote: Address, intents: seq<Intent>,
      ref: Reference, venue: Venue)
    requires base != quote
    requires buy.Kept? && sell.Kept?
    requires SoundSide(buy, base, quote, intents, ref, venue, true)
      && SoundSide(sell, base, quote, intents, ref, venue, false)
    requires forall f :: f in sell.fills ==> UniformAt(f, false, ref.quotePrice, buy.basePrice)
    ensures DistinctFills(buy.fills + sell.fills)
    ensures forall f, g :: f in buy.fills && g in sell.fills ==> f.index != g.index
    ensures forall f :: f in buy.fills + sell.fills ==>
      FillSound(f, base, quote, intents, ref.quotePrice, buy.basePrice)
  {
    hide Sound;
    assert (forall f :: f in buy.fills ==> FillSound(f, base, quote, intents, ref.quotePrice,
      buy.basePrice)) && DistinctFills(buy.fills) by { SoundFills(buy, base, quote, intents, ref, venue); }
    assert (forall f :: f in sell.fills ==> FillSound(f, base, quote, intents, ref.quotePrice,
      sell.basePrice)) && DistinctFills(sell.fills) by { SoundFills(sell, base, quote, intents, ref, venue); }
    forall f | f in sell.fills ensures FillSound(f, base, quote, intents, ref.quotePrice, buy.basePrice) {
      assert UniformAt(f, false, ref.quotePrice, buy.basePrice);
    }
  }

  lemma SoundFills(o: PairOutcome, base: Address, quote: Address, intents: seq<Intent>, ref: Reference, venue: Venue)
    requires o.Kept? && Sound(o, base, quote, intents, ref, venue)
    ensures forall f :: f in o.fills ==> FillSound(f, base, quote, intents, ref.quotePrice, o.basePrice)
    ensures DistinctFills(o.fills)
  {
  }

  lemma {:induction false} FillIndicesAppend(xs: seq<Fill>, ys: seq<Fill>)
    ensures FillIndices(xs + ys) == FillIndices(xs) + FillIndices(ys)
  {
    if ys == [] {
      assert xs + ys == xs;
    } else {
      assert (xs + ys)[..|xs + ys| - 1] == xs + ys[..|ys| - 1];
      FillIndicesAppend(xs, ys[..|ys| - 1]);
    }
  }

  /** Baselines of fills with no index in common merge without disturbing each other. */
  lemma CombinedBaselines(xs: seq<Fill>, ys: seq<Fill>, a: map<nat, nat>, b: map<nat, nat>)
    requires BaselinesFit(xs, a) && BaselinesFit(ys, b)
    requires forall f, g :: f in xs && g in ys ==> f.index != g.index
    ensures BaselinesFit(xs + ys, a + b)
    ensures forall f :: f in xs ==> f.index !in b
  {
    FillIndicesAppend(xs, ys);
    forall f | f in xs ensures f.index !in b {
      FillIndicesExact(ys, f.index);
    }
  }

  lemma CombinedFloors(buy: PairOutcome, sell: PairOutcome, base: Address, quote: Address, intents: seq<Intent>,
      ref: Reference, venue: Venue)
    requires base != quote
    requires buy.Kept? && sell.Kept?
    requires SoundSide(buy, base, quote, intents, ref, venue, true)
      && SoundSide(sell, base, quote, intents, ref, venue, false)
    requires forall f :: f in buy.fills ==> f.index !in sell.baselines
    ensures FloorMet(buy.fills + sell.fills, buy.baselines + sell.baselines, intents, venue, quote, base)
    ensures FloorMet(buy.fills + sell.fills, buy.baselines + sell.baselines, intents, venue, base, quote)
  {
    var m := buy.baselines + sell.baselines;
    FilterAppend(buy.fills, sell.fills, SellsIn(intents, quote));
    FilterAppend(buy.fills, sell.fills, SellsIn(intents, base));
    NoneSelling(buy.fills, base, quote, intents, true);
    NoneSelling(sell.fills, base, quote, intents, false);
    FilterAll(buy.fills, SellsIn(intents, quote));
    FilterAll(sell.fills, SellsIn(intents, base));
    assert buy.fills + [] == buy.fills && [] + sell.fills == sell.fills;
    SumByEq(buy.fills, BaselineOf(m), BaselineOf(buy.baselines));
    SumByEq(sell.fills, BaselineOf(m), BaselineOf(sell.baselines));
  }

  lemma RouteEverythingSound(pair: Pair, intents: seq<Intent>, ref: Reference, venue: Venue)
    requires PairOk(pair, intents) && AllSell(pair.entries)
    requires RouteEverything(pair, ref, venue).Kept?
    ensures Sound(RouteEverything(pair, ref, venue), pair.base, pair.quote, intents, ref, venue)
  {
    hide TryRouted, Sound, UniformAt, PairOk, AllSell, Filter;
    BuySideSound(pair, intents, ref, venue);
    SellSideSound(pair, intents, ref, venue);
    PairTokensDiffer(pair, intents);
    var buys, sells := Filter(pair.entries, SellsQuote(pair.quote)), Filter(pair.entries, SellsBase(pair.quote));
    var buy, sell := TryRouted(pair.(entries := buys), ref, venue), TryRouted(pair.(entries := sells), ref, venue);
    if buy.Kept? && sell.Kept? && (forall f :: f in sell.fills ==> UniformAt(f, false, ref.quotePrice, buy.basePrice)) {
      CombinedSound(buy, sell, pair, intents, ref, venue);
    }
  }

  lemma PairTokensDiffer(pair: Pair, intents: seq<Intent>)
    requires PairOk(pair, intents)
    ensures pair.base != pair.quote
  {
  }

  lemma BuySideSound(pair: Pair, intents: seq<Intent>, ref: Reference, venue: Venue)
    requires PairOk(pair, intents) && AllSell(pair.entries)
    ensures AllSell(Filter(pair.entries, SellsQuote(pair.quote)))
    ensures var buy := TryRouted(pair.(entries := Filter(pair.entries, SellsQuote(pair.quote))), ref, venue);
      buy.Kept? ==> SoundSide(buy, pair.base, pair.quote, intents, ref, venue, true)
  {
    PartOk(pair, SellsQuote(pair.quote), intents);
    hide TryRouted, Sound, PairOk;
    FilterNone(Filter(pair.entries, SellsQuote(pair.quote)), SellsBase(pair.quote));
    if TryRouted(pair.(entries := Filter(pair.entries, SellsQuote(pair.quote))), ref, venue).Kept? {
      TryRoutedSound(pair.(entries := Filter(pair.entries, SellsQuote(pair.quote))), intents, ref, venue);
    }
  }

  lemma SellSideSound(pair: Pair, intents: seq<Intent>, ref: Reference, venue: Venue)
    requires PairOk(pair, intents) && AllSell(pair.entries)
    ensures AllSell(Filter(pair.entries, SellsBase(pair.quote)))
    ensures var sell := TryRouted(pair.(entries := Filter(pair.entries, SellsBase(pair.quote))), ref, venue);
      sell.Kept? ==> SoundSide(sell, pair.base, pair.quote, intents, ref, venue, false)
  {
    PartOk(pair, SellsBase(pair.quote), intents);
    hide TryRouted, Sound, PairOk;
    FilterNone(Filter(pair.entries, SellsBase(pair.quote)), SellsQuote(pair.quote));
    if TryRouted(pair.(entries := Filter(pair.entries, SellsBase(pair.quote))), ref, venue).Kept? {
      TryRoutedSound(pair.(entries := Filter(pair.entries, SellsBase(pair.quote))), intents, ref, venue);
    }
  }

  /** Whatever a pair is kept as, under either profile, it is sound. */
  lemma SolvePairSound(pair: Pair, intents: seq<Intent>, oracle: map<Address, OracleRow>, maxDeviationBps: nat,
      venue: Venue, profile: Profile)
    requires forall t :: t in oracle ==> oracle[t].price > 0
    requires PairOk(pair, intents) && AllSell(pair.entries)
    requires SolvePair(pair, oracle, maxDeviationBps, venue, profile).Kept?
    ensures HealthyPrice(oracle, pair.quote).Some? && HealthyPrice(oracle, pair.base).Some?
    ensures Sound(SolvePair(pair, oracle, maxDeviationBps, venue, profile), pair.base, pair.quote, intents,
      Reference(HealthyPrice(oracle, pair.quote).value, HealthyPrice(oracle, pair.base).value, maxDeviationBps), venue)
  {
    var ref := Reference(HealthyPrice(oracle, pair.quote).value, HealthyPrice(oracle, pair.base).value,
      maxDeviationBps);
    hide TryNetted, TryRouted, RouteEverything, Sound;
    if profile == RoutingOnly {
      RouteEverythingSound(pair, intents, ref, venue);
    } else if TryNetted(pair, ref, venue).Kept? {
      NettedSound(pair, intents, ref, venue);
    } else {
      TryRoutedSound(pair, intents, ref, venue);
    }
  }
}
