/** Bounds on what goes into the solver that keep everything it assembles within the verifier's 256 bits
    (solver/src/solve.ts, verifier/core/src/verify.rs). */
module Bounds {
  import opened Common
  import opened Sorting
  import opened Solutions
  import opened Clearing
  import opened Allocation
  import opened Solve
  import opened Outcomes
  import opened Assembly
  import SolverMath
  import Acceptance
  import Verifier

  /** 2^96, a little under 80 billion tokens of eighteen decimals. */
  const AMOUNT: nat := 0x1_0000_0000_0000_0000_0000_0000

  /** The prices a token can settle at: its oracle price and the band around it. */
  function Highest(price: nat, dev: nat): nat { price + Slack(Reference(1, price, dev)) }

  function Lowest(price: nat, dev: nat): int { price - Slack(Reference(1, price, dev)) }

  /** What the intent sells is worth, at the best prices the bands allow, fewer than 2^112 units of what it buys. */
  predicate WorthFits(i: Intent, oracle: map<Address, OracleRow>, dev: nat)
  {
    i.sellToken in oracle && i.buyToken in oracle ==>
      i.sellAmount * Highest(oracle[i.sellToken].price, dev) < Acceptance.LIMIT * Lowest(oracle[i.buyToken].price, dev)
  }

  ghost predicate VenueBounded(venue: Venue)
  {
    forall a, b, x :: venue(a, b, x).Some? ==> venue(a, b, x).value < Acceptance.LIMIT
  }

  /** Everything here is known before solving: the intents, the oracle, and that the venue never answers with 2^112. */
  ghost predicate InputsInRange(intents: seq<Intent>, oracle: map<Address, OracleRow>, dev: nat, venue: Venue)
  {
    && |intents| < 0x1_0000
    && (forall i :: i in intents ==> 0 < i.sellAmount < AMOUNT && i.minBuyAmount < Acceptance.LIMIT && i.flags < 256)
    && (forall i :: i in intents ==> WorthFits(i, oracle, dev))
    && (forall t :: t in oracle ==> oracle[t].price > 0 && Highest(oracle[t].price, dev) < Acceptance.LIMIT)
    && VenueBounded(venue)
  }

  // ----- counting

  function Below(n: nat): (r: set<nat>)
    ensures |r| == n
    ensures forall k :: k in r <==> 0 <= k < n
  {
    if n == 0 then {} else Below(n - 1) + {n - 1}
  }

  lemma SubsetSize(a: set<nat>, b: set<nat>)
    requires a <= b
    ensures |a| <= |b|
  {
    assert b == a + (b - a);
  }

  lemma {:induction false} IndicesSize(fills: seq<Fill>)
    requires DistinctFills(fills)
    ensures |FillIndices(fills)| == |fills|
  {
    if fills != [] {
      var init, last := fills[..|fills| - 1], fills[|fills| - 1];
      IndicesSize(init);
      forall f | f in init ensures f.index != last.index {
        var k :| 0 <= k < |init| && init[k] == f;
        assert fills[k] == f && fills[|init|] == last;
      }
      FillIndicesExact(init, last.index);
    }
  }

  /** Fills of different intents are no more than the intents. */
  lemma FillCount(fills: seq<Fill>, n: nat)
    requires DistinctFills(fills) && forall f :: f in fills ==> f.index < n
    ensures |fills| <= n
  {
    IndicesSize(fills);
    forall k | k in FillIndices(fills) ensures k in Below(n) {
      FillIndicesExact(fills, k);
    }
    SubsetSize(FillIndices(fills), Below(n));
  }

  lemma {:induction false} TokenCount(intents: seq<Intent>, quote: Address)
    requires forall i :: i in intents ==> BaseOf(i, quote).Some?
    ensures |OtherTokens(intents, quote)| <= |intents|
  {
    if intents != [] {
      var init, i := intents[..|intents| - 1], intents[|intents| - 1];
      TokenCount(init, quote);
      assert i in intents;
    }
  }

  lemma {:induction false} BaseCount(intents: seq<Intent>, quote: Address)
    ensures |BasesOf(intents, quote)| <= |intents|
  {
    if intents != [] {
      BaseCount(intents[..|intents| - 1], quote);
    }
  }

  lemma {:induction false} CallCount(outcomes: seq<PairOutcome>)
    requires forall o :: o in outcomes && o.Kept? ==> |o.venueCalls| <= 2
    ensures |AllCalls(outcomes)| <= 2 * |outcomes|
  {
    hide AllCalls, AllFills;
    if outcomes == [] {
      NoCalls();
    } else {
      AllFillsStep(outcomes);
      assert outcomes[|outcomes| - 1] in outcomes;
      CallCount(outcomes[..|outcomes| - 1]);
    }
  }

  lemma NoCalls()
    ensures AllCalls([]) == []
  {
  }

  // ----- the venue calls of one pair

  /** At most two calls, each selling no more than the pair's fills do, for no more than the venue can answer. */
  ghost predicate CallsFit(o: PairOutcome)
    requires o.Kept?
  {
    |o.venueCalls| <= 2 && forall c :: c in o.venueCalls ==>
      c.amountIn <= SumBy(o.fills, SellOf()) && c.minOut < Acceptance.LIMIT
  }

  lemma ResidualWithin(pair: Pair, fills: seq<Fill>)
    requires Indexed(pair, fills)
    ensures ResidualOf(pair, fills).base <= SumBy(fills, SellOf())
      && ResidualOf(pair, fills).quote <= SumBy(fills, SellOf())
  {
    hide SumBy;
    SumByLe(fills, BaseNet(pair), SellOf());
    SumByLe(fills, QuoteNet(pair), SellOf());
  }

  lemma NeedAnswered(venue: Venue, need: VenueNeed)
    requires VenueBounded(venue)
    ensures VenueOut(venue)(need) < Acceptance.LIMIT
  {
  }

  lemma NettedCalls(pair: Pair, ref: Reference, venue: Venue)
    requires ref.quotePrice > 0
    requires DistinctEntries(pair.entries) && VenueBounded(venue)
    requires TryNetted(pair, ref, venue).Kept?
    ensures CallsFit(TryNetted(pair, ref, venue))
  {
    hide TryNetted, Clear, Allocate, VenueOut, SumBy, VenueBounded, Route, LiftedBaselines;
    NettedShape(pair, ref, venue);
    RouteFits(pair, TryNetted(pair, ref, venue).fills, venue);
  }

  lemma RouteFits(pair: Pair, fills: seq<Fill>, venue: Venue)
    requires Indexed(pair, fills) && VenueBounded(venue)
    requires Route(pair, fills, VenueOut(venue)).Ok?
    ensures var calls := Route(pair, fills, VenueOut(venue)).value;
      |calls| <= 1 && forall c :: c in calls ==> c.amountIn <= SumBy(fills, SellOf()) && c.minOut < Acceptance.LIMIT
  {
    ResidualWithin(pair, fills);
    hide VenueOut, ResidualOf, SumBy, VenueBounded;
    var r := ResidualOf(pair, fills);
    if (r.base < 0 || r.quote < 0) && !(r.base < 0 && r.quote < 0) {
      NeedAnswered(venue, NeedOf(pair, r));
    }
  }

  lemma SideCalls(pair: Pair, side: seq<BookEntry>, buying: bool, ref: Reference, venue: Venue, intents: seq<Intent>)
    requires OneSide(side, pair.base, pair.quote, intents, buying) && VenueBounded(venue)
    requires RouteSide(pair, side, buying, ref, venue).Kept?
    ensures CallsFit(RouteSide(pair, side, buying, ref, venue))
      && |RouteSide(pair, side, buying, ref, venue).venueCalls| == 1
  {
    var o := RouteSide(pair, side, buying, ref, venue);
    hide RouteSide, SumBy, SideFills, FillSound;
    var kept, out := RouteSideShape(pair, side, buying, ref, venue, intents);
    RoutedFills(o, pair, kept, buying, ref, venue, out, intents);
  }

  lemma RoutedCalls(pair: Pair, ref: Reference, venue: Venue, intents: seq<Intent>)
    requires PairOk(pair, intents) && AllSell(pair.entries) && VenueBounded(venue)
    requires TryRouted(pair, ref, venue).Kept?
    ensures CallsFit(TryRouted(pair, ref, venue)) && |TryRouted(pair, ref, venue).venueCalls| == 1
  {
    hide CallsFit, Filter, RouteSide, VenueBounded, SumBy;
    var buys, sells := Filter(pair.entries, SellsQuote(pair.quote)), Filter(pair.entries, SellsBase(pair.quote));
    var buying := SumBy(buys, UsdOf(ref.quotePrice)) >= SumBy(sells, UsdOf(ref.basePrice));
    EntriesFilterDistinct(pair.entries, SellsQuote(pair.quote));
    EntriesFilterDistinct(pair.entries, SellsBase(pair.quote));
    SideCalls(pair, if buying then buys else sells, buying, ref, venue, intents);
  }

  lemma JoinedCalls(xs: seq<Fill>, ys: seq<Fill>)
    ensures SumBy(xs, SellOf()) <= SumBy(xs + ys, SellOf()) && SumBy(ys, SellOf()) <= SumBy(xs + ys, SellOf())
  {
    SumByAppend(xs, ys, SellOf());
    SumByNonNegative(xs, SellOf());
    SumByNonNegative(ys, SellOf());
  }

  lemma EverythingCalls(pair: Pair, ref: Reference, venue: Venue, intents: seq<Intent>)
    requires PairOk(pair, intents) && AllSell(pair.entries) && VenueBounded(venue)
    requires RouteEverything(pair, ref, venue).Kept?
    ensures CallsFit(RouteEverything(pair, ref, venue))
  {
    hide TryRouted, Filter, SumBy, VenueBounded, PairOk, UniformAt, AllSell;
    var buyers, sellers := pair.(entries := Filter(pair.entries, SellsQuote(pair.quote))),
      pair.(entries := Filter(pair.entries, SellsBase(pair.quote)));
    PartOk(pair, SellsQuote(pair.quote), intents);
    PartOk(pair, SellsBase(pair.quote), intents);
    if TryRouted(buyers, ref, venue).Kept? { RoutedCalls(buyers, ref, venue, intents); }
    if TryRouted(sellers, ref, venue).Kept? { RoutedCalls(sellers, ref, venue, intents); }
    if TryRouted(buyers, ref, venue).Kept? && TryRouted(sellers, ref, venue).Kept? {
      JoinedCalls(TryRouted(buyers, ref, venue).fills, TryRouted(sellers, ref, venue).fills);
    }
  }

  lemma PairCalls(pair: Pair, oracle: map<Address, OracleRow>, dev: nat, venue: Venue, profile: Profile,
      intents: seq<Intent>)
    requires forall t :: t in oracle ==> oracle[t].price > 0
    requires PairOk(pair, intents) && AllSell(pair.entries) && VenueBounded(venue)
    requires SolvePair(pair, oracle, dev, venue, profile).Kept?
    ensures CallsFit(SolvePair(pair, oracle, dev, venue, profile))
  {
    hide CallsFit, TryRouted, TryNetted, RouteEverything, VenueBounded;
    var q, b := HealthyPrice(oracle, pair.quote), HealthyPrice(oracle, pair.base);
    var ref := Reference(q.value, b.value, dev);
    if profile == RoutingOnly {
      EverythingCalls(pair, ref, venue, intents);
    } else if TryNetted(pair, ref, venue).Kept? {
      NettedCalls(pair, ref, venue);
    } else {
      RoutedCalls(pair, ref, venue, intents);
    }
  }

  lemma BatchCalls(intents: seq<Intent>, quote: Address, oracle: map<Address, OracleRow>, dev: nat, venue: Venue,
      profile: Profile)
    requires forall t :: t in oracle ==> oracle[t].price > 0
    requires forall i :: i in intents ==> i.sellAmount > 0
    requires VenueBounded(venue)
    ensures var outcomes := SolveBatch(intents, quote, oracle, dev, venue, profile).outcomes;
      |outcomes| <= |intents| && forall o :: o in outcomes && o.Kept? ==> CallsFit(o)
  {
    var pairs := PairsOf(intents, quote);
    var outcomes := Map(pairs, OutcomeFor(oracle, dev, venue, profile));
    PairsOk(intents, quote);
    BaseCount(intents, quote);
    SortPermutes(BasesOf(intents, quote), AddressLe());
    assert |Sort(BasesOf(intents, quote), AddressLe())| == |BasesOf(intents, quote)| by { SameSize(intents, quote); }
    assert |pairs| == |BasesOf(intents, quote)|;
    hide PairsOf, Assemble, CallsFit;
    forall k | 0 <= k < |outcomes| && outcomes[k].Kept? ensures CallsFit(outcomes[k]) {
      assert pairs[k] in pairs;
      forall e | e in pairs[k].entries ensures e.intent.sellAmount > 0 {
        assert intents[e.index] in intents;
      }
      hide SolvePair, VenueBounded;
      PairCalls(pairs[k], oracle, dev, venue, profile, intents);
    }
  }

  lemma SameSize(intents: seq<Intent>, quote: Address)
    ensures |Sort(BasesOf(intents, quote), AddressLe())| == |BasesOf(intents, quote)|
  {
    hide Sort, BasesOf;
    SortPermutes(BasesOf(intents, quote), AddressLe());
    var sorted := Sort(BasesOf(intents, quote), AddressLe());
    assert |multiset(sorted)| == |sorted| && |multiset(BasesOf(intents, quote))| == |BasesOf(intents, quote)|;
  }

  // ----- the assembled solution

  lemma UsedCount(outcomes: seq<PairOutcome>, intents: seq<Intent>, quote: Address, oracle: map<Address, OracleRow>,
      dev: nat, venue: Venue)
    requires SoundAll(outcomes, intents, quote, oracle, dev, venue)
    ensures |Used(outcomes)| <= |intents|
    ensures forall f :: f in Used(outcomes) ==> f.index < |intents| && BaseOf(intents[f.index], quote).Some?
  {
    hide SoundAll, Used, DistinctFills, AllFills;
    UsedFacts(outcomes, intents, quote, oracle, dev, venue);
    forall f | f in Used(outcomes) ensures f.index < |intents| && BaseOf(intents[f.index], quote).Some? {
      var k := EveryFillOwned(outcomes, intents, quote, oracle, dev, venue, f);
    }
    FillCount(Used(outcomes), |intents|);
  }

  lemma CountsFit(s: Solution, outcomes: seq<PairOutcome>, intents: seq<Intent>, quote: Address,
      oracle: map<Address, OracleRow>, dev: nat, venue: Venue)
    requires SoundAll(outcomes, intents, quote, oracle, dev, venue)
    requires Built(s, outcomes, intents, quote, oracle)
    ensures |s.intents| == |s.executions| <= |intents| && |s.tokens| <= |intents| + 1
    ensures forall i :: i in s.intents ==> i in intents
  {
    hide SoundAll, BaseOf, TokenPrice, BaselineAt, AllCalls, OtherTokens, Sort;
    UsedCount(outcomes, intents, quote, oracle, dev, venue);
    forall i | i in s.intents ensures i in intents && BaseOf(i, quote).Some? {
      var k :| 0 <= k < |s.intents| && s.intents[k] == i;
      assert Used(outcomes)[k] in Used(outcomes);
    }
    hide Used;
    TokenCount(s.intents, quote);
    TokensSize(s.intents, quote);
  }

  lemma TokensSize(intents: seq<Intent>, quote: Address)
    ensures |OrderTokens(intents, quote)| == 1 + |OtherTokens(intents, quote)|
  {
    hide OtherTokens, Sort;
    SortPermutes(OtherTokens(intents, quote), AddressLe());
    var sorted := Sort(OtherTokens(intents, quote), AddressLe());
    assert |multiset(sorted)| == |sorted| && |multiset(OtherTokens(intents, quote))| == |OtherTokens(intents, quote)|;
  }

  lemma PriceBounds(price: nat, oraclePrice: nat, dev: nat)
    requires SolverMath.WithinBand(price, oraclePrice, dev)
    ensures Lowest(oraclePrice, dev) <= price <= Highest(oraclePrice, dev)
  {
    UnitBand(price, Reference(1, oraclePrice, dev));
  }

  lemma PricesFit(s: Solution, outcomes: seq<PairOutcome>, intents: seq<Intent>, quote: Address,
      oracle: map<Address, OracleRow>, dev: nat, venue: Venue)
    requires SoundAll(outcomes, intents, quote, oracle, dev, venue)
    requires Built(s, outcomes, intents, quote, oracle)
    requires Acceptance.Settles(s, OraclePrices(s.tokens, oracle), dev)
    ensures |s.prices| == |s.tokens|
    ensures forall t :: 0 <= t < |s.tokens| ==>
      && s.tokens[t] in oracle && OraclePrices(s.tokens, oracle)[t] == oracle[s.tokens[t]].price
      && Lowest(oracle[s.tokens[t]].price, dev) <= s.prices[t] <= Highest(oracle[s.tokens[t]].price, dev)
  {
    hide SoundAll, Lowest, Highest, Acceptance.ExecutionOk, SolverMath.BalanceAt, SolverMath.WithinBand, TokenPrice,
      Used;
    PricesFound(s, outcomes, intents, quote, oracle, dev, venue);
    forall t | 0 <= t < |s.tokens|
      ensures s.tokens[t] in oracle
        && Lowest(oracle[s.tokens[t]].price, dev) <= s.prices[t] <= Highest(oracle[s.tokens[t]].price, dev)
    {
      assert s.tokens[t] in s.tokens;
      PriceBounds(s.prices[t], oracle[s.tokens[t]].price, dev);
    }
  }

  /** What is bought is worth no more than what is sold. */
  lemma BoughtFits(sell: nat, buy: nat, amount: nat, sellPrice: nat, buyPrice: nat, high: nat, low: int, limit: nat)
    requires buy * buyPrice <= sell * sellPrice
    requires sell <= amount && sellPrice <= high && low <= buyPrice
    requires amount * high < limit * low
    ensures buy < limit
  {
    MulMono2(sell, amount, sellPrice, high);
    if buy >= limit {
      MulMono(limit, buy, buyPrice);
      MulMono(low, buyPrice, limit);
    }
  }

  lemma ExecutionFits(s: Solution, k: nat, oracle: map<Address, OracleRow>, dev: nat)
    requires k < |s.executions| == |s.baselineQuotes| && |s.prices| == |s.tokens|
    requires Acceptance.ExecutionOk(s, k)
    requires forall i :: i in s.intents ==> i.sellAmount < AMOUNT && WorthFits(i, oracle, dev)
    requires forall t :: 0 <= t < |s.tokens| ==>
      && s.tokens[t] in oracle
      && Lowest(oracle[s.tokens[t]].price, dev) <= s.prices[t] <= Highest(oracle[s.tokens[t]].price, dev)
    ensures s.executions[k].executedSell < AMOUNT && s.executions[k].executedBuy < Acceptance.LIMIT
  {
    hide Lowest, Highest, SolverMath.LimitRespected;
    var e := s.executions[k];
    var i := s.intents[e.intentIndex];
    var a, b := TokenIndex(s.tokens, i.sellToken).value, TokenIndex(s.tokens, i.buyToken).value;
    assert s.tokens[a] == i.sellToken && s.tokens[b] == i.buyToken;
    assert i in s.intents;
    hide WorthFits;
    assert i.sellAmount * Highest(oracle[i.sellToken].price, dev) <
      Acceptance.LIMIT * Lowest(oracle[i.buyToken].price, dev) by { WorthIs(i, oracle, dev); }
    BoughtFits(e.executedSell, e.executedBuy, i.sellAmount, s.prices[a], s.prices[b],
      Highest(oracle[i.sellToken].price, dev), Lowest(oracle[i.buyToken].price, dev), Acceptance.LIMIT);
  }

  lemma WorthIs(i: Intent, oracle: map<Address, OracleRow>, dev: nat)
    requires WorthFits(i, oracle, dev) && i.sellToken in oracle && i.buyToken in oracle
    ensures i.sellAmount * Highest(oracle[i.sellToken].price, dev) <
      Acceptance.LIMIT * Lowest(oracle[i.buyToken].price, dev)
  {
  }

  lemma CallFits(outcomes: seq<PairOutcome>, c: VenueCall, intents: seq<Intent>, quote: Address,
      oracle: map<Address, OracleRow>, dev: nat, venue: Venue)
    requires SoundAll(outcomes, intents, quote, oracle, dev, venue)
    requires |intents| < 0x1_0000 && forall i :: i in intents ==> i.sellAmount < AMOUNT
    requires forall o :: o in outcomes && o.Kept? ==> CallsFit(o)
    requires c in AllCalls(outcomes)
    ensures c.amountIn < Acceptance.LIMIT && c.minOut < Acceptance.LIMIT
  {
    var k := EveryCallOwned(outcomes, c);
    var o := outcomes[k];
    assert o in outcomes;
    FillsSmall(o, intents, quote, oracle, dev, venue);
    hide SoundAll, AllCalls, SumBy;
    SumByBound(o.fills, SellOf(), AMOUNT);
    FillCount(o.fills, |intents|);
    MulMono(|o.fills|, 0xffff, AMOUNT);
  }

  lemma FillsSmall(o: PairOutcome, intents: seq<Intent>, quote: Address, oracle: map<Address, OracleRow>, dev: nat,
      venue: Venue)
    requires o.Kept? && SoundOutcome(o, intents, quote, oracle, dev, venue)
    requires forall i :: i in intents ==> i.sellAmount < AMOUNT
    ensures DistinctFills(o.fills) && forall f :: f in o.fills ==> f.index < |intents| && f.executedSell <= AMOUNT
  {
    hide FloorMet, BaselinesFit, SumBy, SolverMath.UniformPriceHolds, SolverMath.LimitRespected;
    forall f | f in o.fills ensures f.index < |intents| && f.executedSell <= AMOUNT {
      assert intents[f.index] in intents;
    }
  }

  /** Bounded inputs give a solution in range. */
  lemma SolutionInRange(intents: seq<Intent>, quote: Address, oracle: map<Address, OracleRow>, dev: nat, venue: Venue,
      profile: Profile)
    requires InputsInRange(intents, oracle, dev, venue)
    ensures var solution := SolveBatch(intents, quote, oracle, dev, venue, profile).solution;
      solution.Some? && Acceptance.InRange(solution.value, OraclePrices(solution.value.tokens, oracle))
  {
    var plan := SolveBatch(intents, quote, oracle, dev, venue, profile);
    BatchSound(intents, quote, oracle, dev, venue, profile);
    SolveSettles(intents, quote, oracle, dev, venue, profile);
    BatchCalls(intents, quote, oracle, dev, venue, profile);
    hide SolveBatch;
    RangeOf(plan.solution.value, plan.outcomes, intents, quote, oracle, dev, venue);
  }

  lemma RangeOf(s: Solution, outcomes: seq<PairOutcome>, intents: seq<Intent>, quote: Address,
      oracle: map<Address, OracleRow>, dev: nat, venue: Venue)
    requires InputsInRange(intents, oracle, dev, venue)
    requires SoundAll(outcomes, intents, quote, oracle, dev, venue)
    requires Built(s, outcomes, intents, quote, oracle)
    requires Acceptance.Settles(s, OraclePrices(s.tokens, oracle), dev)
    requires |outcomes| <= |intents| && forall o :: o in outcomes && o.Kept? ==> CallsFit(o)
    ensures Acceptance.InRange(s, OraclePrices(s.tokens, oracle))
  {
    hide SoundAll, Built, AllCalls, Acceptance.Settles, OraclePrices, WorthFits, CallsFit, VenueBounded, Highest;
    CountsFit(s, outcomes, intents, quote, oracle, dev, venue);
    CallsInRange(s, outcomes, intents, quote, oracle, dev, venue);
    ValuesInRange(s, outcomes, intents, quote, oracle, dev, venue);
  }

  lemma CallsInRange(s: Solution, outcomes: seq<PairOutcome>, intents: seq<Intent>, quote: Address,
      oracle: map<Address, OracleRow>, dev: nat, venue: Venue)
    requires |intents| < 0x1_0000 && forall i :: i in intents ==> i.sellAmount < AMOUNT
    requires SoundAll(outcomes, intents, quote, oracle, dev, venue)
    requires Built(s, outcomes, intents, quote, oracle)
    requires |outcomes| <= |intents| && forall o :: o in outcomes && o.Kept? ==> CallsFit(o)
    ensures |s.venueCalls| <= Acceptance.MAX_COUNT
    ensures forall c :: c in s.venueCalls ==> c.amountIn < Acceptance.LIMIT && c.minOut < Acceptance.LIMIT
  {
    CallCount(outcomes);
    assert s.venueCalls == AllCalls(outcomes);
    hide SoundAll, Built, AllCalls, CallsFit;
    forall c | c in s.venueCalls ensures c.amountIn < Acceptance.LIMIT && c.minOut < Acceptance.LIMIT {
      CallFits(outcomes, c, intents, quote, oracle, dev, venue);
    }
  }

  lemma ValuesInRange(s: Solution, outcomes: seq<PairOutcome>, intents: seq<Intent>, quote: Address,
      oracle: map<Address, OracleRow>, dev: nat, venue: Venue)
    requires forall i :: i in intents ==> i.sellAmount < AMOUNT && WorthFits(i, oracle, dev)
    requires forall t :: t in oracle ==> Highest(oracle[t].price, dev) < Acceptance.LIMIT
    requires SoundAll(outcomes, intents, quote, oracle, dev, venue)
    requires Built(s, outcomes, intents, quote, oracle)
    requires Acceptance.Settles(s, OraclePrices(s.tokens, oracle), dev)
    ensures |s.prices| == |s.tokens| == |OraclePrices(s.tokens, oracle)|
    ensures forall e :: e in s.executions ==> e.executedSell < Acceptance.LIMIT && e.executedBuy < Acceptance.LIMIT
    ensures forall t :: 0 <= t < |s.tokens| ==>
      s.prices[t] < Acceptance.LIMIT && OraclePrices(s.tokens, oracle)[t] < Acceptance.LIMIT
  {
    hide SoundAll, Built, OraclePrices, Highest, Lowest, WorthFits, Acceptance.ExecutionOk, SolverMath.BalanceAt,
      SolverMath.WithinBand;
    CountsFit(s, outcomes, intents, quote, oracle, dev, venue);
    PricesFit(s, outcomes, intents, quote, oracle, dev, venue);
    forall e | e in s.executions ensures e.executedSell < Acceptance.LIMIT && e.executedBuy < Acceptance.LIMIT {
      var k :| 0 <= k < |s.executions| && s.executions[k] == e;
      ExecutionFits(s, k, oracle, dev);
    }
    forall t | 0 <= t < |s.tokens|
      ensures s.prices[t] < Acceptance.LIMIT && OraclePrices(s.tokens, oracle)[t] < Acceptance.LIMIT {
      SelfBelow(oracle[s.tokens[t]].price, dev);
    }
  }

  lemma SelfBelow(price: nat, dev: nat)
    ensures price <= Highest(price, dev)
  {
  }

  /** The main result, from bounds on the inputs alone: for intents and oracle prices of ordinary size and a venue whose
      answers stay below 2^112,
        whatever the solver assembles in either profile is accepted by the verifier after packing,
      and verify returns exactly the savings the solver claims. */
  lemma BoundedSolveAccepted(intents: seq<Intent>, quote: Address, oracle: map<Address, OracleRow>, dev: Verifier.U16,
      venue: Venue, profile: Profile)
    requires InputsInRange(intents, oracle, dev, venue)
    ensures var solution := SolveBatch(intents, quote, oracle, dev, venue, profile).solution;
      && solution.Some?
      && var s, prices := solution.value, OraclePrices(solution.value.tokens, oracle);
         && Acceptance.Ready(s, prices, dev)
         && s.claimedSavings < Verifier.TWO_256
         && Verifier.Outcome(Acceptance.InputOf(s, prices, dev)) == Ok(s.claimedSavings)
  {
    hide SolveBatch, Acceptance.InRange, Acceptance.Ready, Verifier.Outcome, OraclePrices;
    SolutionInRange(intents, quote, oracle, dev, venue, profile);
    SolveAccepted(intents, quote, oracle, dev, venue, profile);
  }
}
