/** One Solution from all the pairs (solver/src/solve.ts, `solve` and `assemble`). */
module Assembly {
  import opened Common
  import opened Sorting
  import opened Solutions
  import opened Clearing
  import opened Allocation
  import opened Solve
  import opened Outcomes
  import SolverMath
  import Acceptance
  import Verifier

  function FillsOf(): PairOutcome -> seq<Fill>
  {
    (o: PairOutcome) => if o.Kept? then o.fills else []
  }

  function CallsOf(): PairOutcome -> seq<VenueCall>
  {
    (o: PairOutcome) => if o.Kept? then o.venueCalls else []
  }

  function ByIndex(): (Fill, Fill) -> bool { (a: Fill, b: Fill) => a.index <= b.index }

  /** Every fill of every pair, by intent index. */
  function Used(outcomes: seq<PairOutcome>): seq<Fill>
  {
    Sort(Concat(Map(outcomes, FillsOf())), ByIndex())
  }

  /** The position a used fill's index maps to; the last one where an index repeats. */
  function PositionOf(used: seq<Fill>, index: nat): Option<nat>
  {
    if used == [] then None
    else if used[|used| - 1].index == index then Some(|used| - 1)
    else PositionOf(used[..|used| - 1], index)
  }

  /** The price of a base token: its pair's, where the pair is kept. */
  function BasePriceOf(outcomes: seq<PairOutcome>, token: Address): Option<nat>
  {
    if outcomes == [] then None
    else
      var o := outcomes[|outcomes| - 1];
      if o.Kept? && o.base == token then Some(o.basePrice) else BasePriceOf(outcomes[..|outcomes| - 1], token)
  }

  /** The baseline recorded for an intent index. */
  function BaselineAt(outcomes: seq<PairOutcome>, index: nat): Option<nat>
  {
    if outcomes == [] then None
    else
      var o := outcomes[|outcomes| - 1];
      if o.Kept?
        && index in o.baselines then Some(o.baselines[index]) else BaselineAt(outcomes[..|outcomes| - 1], index)
  }

  function AllSome<T>(xs: seq<Option<T>>): (r: Option<seq<T>>)
    ensures r.Some? <==> forall k :: 0 <= k < |xs| ==> xs[k].Some?
    ensures r.Some? ==> |r.value| == |xs| && forall k :: 0 <= k < |xs| ==> xs[k] == Some(r.value[k])
  {
    if forall k :: 0 <= k < |xs| ==> xs[k].Some?
    then Some(seq(|xs|, k requires 0 <= k < |xs| && xs[k].Some? => xs[k].value))
    else None
  }

  function TokenPrice(outcomes: seq<PairOutcome>, quote: Address,
      oracle: map<Address, OracleRow>): Address -> Option<nat>
  {
    (t: Address) =>
      if t == quote then (if t in oracle then Some(oracle[t].price) else None) else BasePriceOf(outcomes, t)
  }

  function IntentOf(intents: seq<Intent>): Fill -> Option<Intent>
  {
    (f: Fill) => if f.index < |intents| then Some(intents[f.index]) else None
  }

  function ExecutionOf(used: seq<Fill>): Fill -> Option<Execution>
  {
    (f: Fill) => match PositionOf(used, f.index) case None => None case Some(n) =>
      Some(Execution(n, f.executedSell, f.executedBuy))
  }

  function BaselineFor(outcomes: seq<PairOutcome>): Fill -> Option<nat>
  {
    (f: Fill) => BaselineAt(outcomes, f.index)
  }

  /** The parts of a solution before its savings are summed. */
  function Draft(intents: seq<Intent>, quote: Address, oracle: map<Address, OracleRow>,
      outcomes: seq<PairOutcome>): Option<Solution>
  {
    var used := Used(outcomes);
    match AllSome(Map(used, IntentOf(intents)))
    case None => None
    case Some(chosen) =>
      var tokens := if chosen == [] then [] else OrderTokens(chosen, quote);
      var prices := AllSome(Map(tokens, TokenPrice(outcomes, quote, oracle)));
      var executions := AllSome(Map(used, ExecutionOf(used)));
      var baselines := AllSome(Map(used, BaselineFor(outcomes)));
      if prices.None? || executions.None? || baselines.None? then None
      else Some(Solution(chosen, tokens, prices.value, executions.value, Concat(Map(outcomes, CallsOf())),
        baselines.value, 0))
  }

  /** The Solution, or None where the source would meet a missing entry. */
  function Assemble(intents: seq<Intent>, quote: Address, oracle: map<Address, OracleRow>,
      outcomes: seq<PairOutcome>): Option<Solution>
  {
    match Draft(intents, quote, oracle, outcomes)
    case None => None
    case Some(s) =>
      var claimed := if s.intents == [] then Some(0)
        else SolverMath.ClaimedSavings(s.executions, s.baselineQuotes, s.prices, s.intents, s.tokens);
      if claimed.None? then None else Some(s.(claimedSavings := claimed.value))
  }

  function OutcomeFor(oracle: map<Address, OracleRow>, maxDeviationBps: nat, venue: Venue,
      profile: Profile): Pair -> PairOutcome
    requires forall t :: t in oracle ==> oracle[t].price > 0
  {
    (p: Pair) =>
      if DistinctEntries(p.entries) && AllSell(p.entries) then SolvePair(p, oracle, maxDeviationBps, venue, profile)
      else Skipped(p.base, NoFill)
  }

  datatype Plan = Plan(outcomes: seq<PairOutcome>, solution: Option<Solution>)

  /** solve: every pair on its own, then one Solution. */
  function SolveBatch(intents: seq<Intent>, quote: Address, oracle: map<Address, OracleRow>, maxDeviationBps: nat,
      venue: Venue, profile: Profile): Plan
    requires forall t :: t in oracle ==> oracle[t].price > 0
  {
    var outcomes := Map(PairsOf(intents, quote), OutcomeFor(oracle, maxDeviationBps, venue, profile));
    Plan(outcomes, Assemble(intents, quote, oracle, outcomes))
  }

  // ----- the outcomes together

  function RefOf(oracle: map<Address, OracleRow>, quote: Address, base: Address, maxDeviationBps: nat): Reference
    requires HealthyPrice(oracle, quote).Some? && HealthyPrice(oracle, base).Some?
  {
    Reference(HealthyPrice(oracle, quote).value, HealthyPrice(oracle, base).value, maxDeviationBps)
  }

  ghost predicate SoundOutcome(o: PairOutcome, intents: seq<Intent>, quote: Address, oracle: map<Address, OracleRow>,
      dev: nat, venue: Venue)
  {
    && o.base != quote
    && (o.Kept? ==>
          && HealthyPrice(oracle, quote).Some? && HealthyPrice(oracle, o.base).Some?
          && Sound(o, o.base, quote, intents, RefOf(oracle, quote, o.base, dev), venue))
  }

  /** Sound outcomes of different base tokens. */
  ghost predicate SoundAll(outcomes: seq<PairOutcome>, intents: seq<Intent>, quote: Address,
      oracle: map<Address, OracleRow>, dev: nat, venue: Venue)
  {
    && (forall k :: 0 <= k < |outcomes| ==> SoundOutcome(outcomes[k], intents, quote, oracle, dev, venue))
    && (forall j, k :: 0 <= j < k < |outcomes| ==> outcomes[j].base != outcomes[k].base)
  }

  lemma BatchSound(intents: seq<Intent>, quote: Address, oracle: map<Address, OracleRow>, dev: nat, venue: Venue,
      profile: Profile)
    requires forall t :: t in oracle ==> oracle[t].price > 0
    requires forall i :: i in intents ==> i.sellAmount > 0
    ensures SoundAll(SolveBatch(intents, quote, oracle, dev, venue, profile).outcomes, intents, quote, oracle, dev,
      venue)
  {
    var pairs := PairsOf(intents, quote);
    var outcomes := Map(pairs, OutcomeFor(oracle, dev, venue, profile));
    PairsOk(intents, quote);
    hide PairsOf, Assemble;
    forall k | 0 <= k < |outcomes|
      ensures SoundOutcome(outcomes[k], intents, quote, oracle, dev, venue) && outcomes[k].base == pairs[k].base
    {
      assert pairs[k] in pairs;
      forall e | e in pairs[k].entries ensures e.intent.sellAmount > 0 {
        assert intents[e.index] in intents;
      }
      SolvePairBase(pairs[k], oracle, dev, venue, profile);
      hide SolvePair, Sound;
      if outcomes[k].Kept? {
        SolvePairSound(pairs[k], intents, oracle, dev, venue, profile);
      }
    }
  }

  lemma SolvePairBase(pair: Pair, oracle: map<Address, OracleRow>, dev: nat, venue: Venue, profile: Profile)
    requires forall t :: t in oracle ==> oracle[t].price > 0
    requires DistinctEntries(pair.entries) && AllSell(pair.entries)
    ensures SolvePair(pair, oracle, dev, venue, profile).base == pair.base
  {
    hide TryNetted, TryRouted, RouteEverything;
    if HealthyPrice(oracle, pair.quote).Some? && HealthyPrice(oracle, pair.base).Some? {
      var ref := Reference(HealthyPrice(oracle, pair.quote).value, HealthyPrice(oracle, pair.base).value, dev);
      NettedBase(pair, ref, venue);
      RoutedBase(pair, ref, venue);
    }
  }

  lemma NettedBase(pair: Pair, ref: Reference, venue: Venue)
    requires ref.quotePrice > 0
    requires DistinctEntries(pair.entries)
    ensures TryNetted(pair, ref, venue).base == pair.base
  {
    hide Clear, Allocate, LiftedBaselines, Route;
  }

  lemma RoutedBase(pair: Pair, ref: Reference, venue: Venue)
    requires AllSell(pair.entries)
    ensures TryRouted(pair, ref, venue).base == pair.base
    ensures RouteEverything(pair, ref, venue).base == pair.base
  {
    hide TryRouted, UniformAt, Filter;
    TryRoutedBase(pair, ref, venue);
    TryRoutedBase(pair.(entries := Filter(pair.entries, SellsQuote(pair.quote))), ref, venue);
    TryRoutedBase(pair.(entries := Filter(pair.entries, SellsBase(pair.quote))), ref, venue);
  }

  lemma TryRoutedBase(pair: Pair, ref: Reference, venue: Venue)
    requires AllSell(pair.entries)
    ensures TryRouted(pair, ref, venue).base == pair.base
  {
    SideBase(pair, Filter(pair.entries, SellsQuote(pair.quote)), true, ref, venue);
    SideBase(pair, Filter(pair.entries, SellsBase(pair.quote)), false, ref, venue);
    hide RouteSide;
  }

  lemma {:induction false} SideBase(pair: Pair, side: seq<BookEntry>, buying: bool, ref: Reference, venue: Venue)
    requires AllSell(side)
    ensures RouteSide(pair, side, buying, ref, venue).base == pair.base
    decreases |side|
  {
    if side != [] {
      var out := venue(if buying then pair.quote else pair.base, if buying then pair.base else pair.quote,
        SideTotal(side));
      if out.Some? {
        var e := FirstBroken(side, SplitOut(side, out.value));
        if e.Some? {
          EntriesShorter(side, OtherEntry(e.value.index), e.value);
          SideBase(pair, Filter(side, OtherEntry(e.value.index)), buying, ref, venue);
        }
      }
    }
  }

  // ----- the fills together

  function AllFills(outcomes: seq<PairOutcome>): seq<Fill> { Concat(Map(outcomes, FillsOf())) }

  function AllCalls(outcomes: seq<PairOutcome>): seq<VenueCall> { Concat(Map(outcomes, CallsOf())) }

  lemma AllFillsStep(outcomes: seq<PairOutcome>)
    requires outcomes != []
    ensures AllFills(outcomes) == AllFills(outcomes[..|outcomes| - 1]) + FillsOf()(outcomes[|outcomes| - 1])
    ensures AllCalls(outcomes) == AllCalls(outcomes[..|outcomes| - 1]) + CallsOf()(outcomes[|outcomes| - 1])
  {
    var init := outcomes[..|outcomes| - 1];
    assert Map(outcomes, FillsOf())[..|init|] == Map(init, FillsOf());
    assert Map(outcomes, CallsOf())[..|init|] == Map(init, CallsOf());
  }

  lemma SoundPrefix(outcomes: seq<PairOutcome>, intents: seq<Intent>, quote: Address, oracle: map<Address, OracleRow>,
      dev: nat, venue: Venue)
    requires SoundAll(outcomes, intents, quote, oracle, dev, venue)
    requires outcomes != []
    ensures SoundAll(outcomes[..|outcomes| - 1], intents, quote, oracle, dev, venue)
    ensures SoundOutcome(outcomes[|outcomes| - 1], intents, quote, oracle, dev, venue)
  {
    hide SoundOutcome;
  }

  /** The fill belongs to this kept pair. */
  ghost predicate Owns(o: PairOutcome, f: Fill, intents: seq<Intent>, quote: Address)
  {
    o.Kept? && f in o.fills && f.index < |intents| && BaseOf(intents[f.index], quote) == Some(o.base)
  }

  lemma {:induction false} EveryFillOwned(outcomes: seq<PairOutcome>, intents: seq<Intent>, quote: Address,
      oracle: map<Address, OracleRow>, dev: nat, venue: Venue, f: Fill)
    returns (k: nat)
    requires SoundAll(outcomes, intents, quote, oracle, dev, venue)
    requires f in AllFills(outcomes)
    ensures k < |outcomes| && Owns(outcomes[k], f, intents, quote)
  {
    AllFillsStep(outcomes);
    SoundPrefix(outcomes, intents, quote, oracle, dev, venue);
    k := |outcomes| - 1;
    if f in AllFills(outcomes[..k]) {
      k := EveryFillOwned(outcomes[..k], intents, quote, oracle, dev, venue, f);
    } else {
      assert FillSound(f, outcomes[k].base, quote, intents, HealthyPrice(oracle, quote).value, outcomes[k].basePrice);
    }
  }

  /** No intent is filled twice, within a pair or across pairs. */
  lemma {:induction false} AllFillsDistinct(outcomes: seq<PairOutcome>, intents: seq<Intent>, quote: Address,
      oracle: map<Address, OracleRow>, dev: nat, venue: Venue)
    requires SoundAll(outcomes, intents, quote, oracle, dev, venue)
    ensures DistinctFills(AllFills(outcomes))
  {
    if outcomes != [] {
      var init, last := outcomes[..|outcomes| - 1], outcomes[|outcomes| - 1];
      SoundPrefix(outcomes, intents, quote, oracle, dev, venue);
      AllFillsDistinct(init, intents, quote, oracle, dev, venue);
      AllFillsStep(outcomes);
      if last.Kept? {
        SoundFills(last, last.base, quote, intents, RefOf(oracle, quote, last.base, dev), venue);
        hide Sound, Refusal;
        forall f, g | f in AllFills(init) && g in last.fills ensures f.index != g.index {
          var k := EveryFillOwned(init, intents, quote, oracle, dev, venue, f);
          assert FillSound(g, last.base, quote, intents, HealthyPrice(oracle, quote).value, last.basePrice);
          assert outcomes[k].base != last.base;
        }
        DistinctAppend(AllFills(init), last.fills);
      }
    }
  }

  lemma DistinctAppend(xs: seq<Fill>, ys: seq<Fill>)
    requires DistinctFills(xs) && DistinctFills(ys)
    requires forall f, g :: f in xs && g in ys ==> f.index != g.index
    ensures DistinctFills(xs + ys)
  {
    forall j, k | 0 <= j < k < |xs + ys| ensures (xs + ys)[j].index != (xs + ys)[k].index {
      if j < |xs| <= k {
        assert xs[j] in xs && ys[k - |xs|] in ys;
      }
    }
  }

  lemma DistinctFillsPermute(xs: seq<Fill>, ys: seq<Fill>)
    requires multiset(xs) == multiset(ys)
    requires DistinctFills(xs)
    ensures DistinctFills(ys)
  {
    DistinctPermutes(xs, ys);
    forall j, k | 0 <= j < k < |ys| ensures ys[j].index != ys[k].index {
      assert ys[j] in multiset(ys) && ys[k] in multiset(ys);
      SameFill(xs, ys[j], ys[k]);
    }
  }

  lemma UsedFacts(outcomes: seq<PairOutcome>, intents: seq<Intent>, quote: Address, oracle: map<Address, OracleRow>,
      dev: nat, venue: Venue)
    requires SoundAll(outcomes, intents, quote, oracle, dev, venue)
    ensures var used := Used(outcomes);
      && multiset(used) == multiset(AllFills(outcomes))
      && (forall f :: f in used <==> f in AllFills(outcomes))
      && DistinctFills(used)
  {
    AllFillsDistinct(outcomes, intents, quote, oracle, dev, venue);
    SortPermutes(AllFills(outcomes), ByIndex());
    hide SoundAll;
    DistinctFillsPermute(AllFills(outcomes), Used(outcomes));
  }

  lemma {:induction false} PositionIsOwn(used: seq<Fill>, k: nat)
    requires DistinctFills(used)
    requires k < |used|
    ensures PositionOf(used, used[k].index) == Some(k)
  {
    if k < |used| - 1 {
      PositionIsOwn(used[..|used| - 1], k);
    }
  }

  /** The baseline looked up for a fill is its own pair's. */
  lemma {:induction false} BaselineIsOwn(outcomes: seq<PairOutcome>, intents: seq<Intent>, quote: Address,
      oracle: map<Address, OracleRow>, dev: nat, venue: Venue, k: nat, f: Fill)
    requires SoundAll(outcomes, intents, quote, oracle, dev, venue)
    requires k < |outcomes| && Owns(outcomes[k], f, intents, quote)
    ensures f.index in outcomes[k].baselines && BaselineAt(outcomes, f.index) == Some(outcomes[k].baselines[f.index])
  {
    var init, last := outcomes[..|outcomes| - 1], outcomes[|outcomes| - 1];
    SoundPrefix(outcomes, intents, quote, oracle, dev, venue);
    if k < |init| {
      BaselineIsOwn(init, intents, quote, oracle, dev, venue, k, f);
      assert outcomes[k].base != last.base;
      if last.Kept? {
        NotAmong(last, intents, quote, RefOf(oracle, quote, last.base, dev), venue, f);
      }
    }
  }

  lemma NotAmong(o: PairOutcome, intents: seq<Intent>, quote: Address, ref: Reference, venue: Venue, f: Fill)
    requires o.Kept? && Sound(o, o.base, quote, intents, ref, venue)
    requires f.index < |intents| && BaseOf(intents[f.index], quote) != Some(o.base)
    ensures f.index !in o.baselines
  {
    forall g | g in o.fills ensures g.index != f.index {
      assert FillSound(g, o.base, quote, intents, ref.quotePrice, o.basePrice);
    }
    FillIndicesExact(o.fills, f.index);
  }

  lemma {:induction false} BasePriceIsOwn(outcomes: seq<PairOutcome>, intents: seq<Intent>, quote: Address,
      oracle: map<Address, OracleRow>, dev: nat, venue: Venue, k: nat)
    requires SoundAll(outcomes, intents, quote, oracle, dev, venue)
    requires k < |outcomes| && outcomes[k].Kept?
    ensures BasePriceOf(outcomes, outcomes[k].base) == Some(outcomes[k].basePrice)
  {
    hide SoundOutcome;
    var init, last := outcomes[..|outcomes| - 1], outcomes[|outcomes| - 1];
    if k < |init| {
      assert outcomes[k].base != last.base;
      BasePriceIsOwn(init, intents, quote, oracle, dev, venue, k);
    }
  }

  // ----- the assembled solution

  /** Per token, all pairs together never leave the contract short. */
  lemma {:induction false} AllCovered(outcomes: seq<PairOutcome>, intents: seq<Intent>, quote: Address,
      oracle: map<Address, OracleRow>, dev: nat, venue: Venue, t: Address)
    requires SoundAll(outcomes, intents, quote, oracle, dev, venue)
    ensures SumBy(AllFills(outcomes), FillNet(intents, t)) + SumBy(AllCalls(outcomes), CallNet(t)) >= 0
  {
    if outcomes != [] {
      var init, last := outcomes[..|outcomes| - 1], outcomes[|outcomes| - 1];
      SoundPrefix(outcomes, intents, quote, oracle, dev, venue);
      AllCovered(init, intents, quote, oracle, dev, venue, t);
      AllFillsStep(outcomes);
      SumByAppend(AllFills(init), FillsOf()(last), FillNet(intents, t));
      SumByAppend(AllCalls(init), CallsOf()(last), CallNet(t));
      if last.Kept? {
        SoundNet(last, intents, quote, RefOf(oracle, quote, last.base, dev), venue, t);
      }
    }
  }

  lemma SoundNet(o: PairOutcome, intents: seq<Intent>, quote: Address, ref: Reference, venue: Venue, t: Address)
    requires o.Kept? && Sound(o, o.base, quote, intents, ref, venue)
    ensures SumBy(o.fills, FillNet(intents, t)) + SumBy(o.venueCalls, CallNet(t)) >= 0
  {
  }

  /** Facts about one kept pair, as the lookups use them. */
  lemma SoundParts(o: PairOutcome, intents: seq<Intent>, quote: Address, ref: Reference, venue: Venue)
    requires o.Kept? && Sound(o, o.base, quote, intents, ref, venue)
    ensures o.fills != []
    ensures forall f :: f in o.fills ==> FillSound(f, o.base, quote, intents, ref.quotePrice, o.basePrice)
    ensures forall f :: f in o.fills ==> f.index in o.baselines && o.baselines[f.index] <= f.executedBuy
    ensures SolverMath.WithinBand(o.basePrice, ref.basePrice, ref.maxDeviationBps)
    ensures forall c :: c in o.venueCalls ==>
      (c.tokenIn == o.base && c.tokenOut == quote) || (c.tokenIn == quote && c.tokenOut == o.base)
  {
    hide FillSound, FloorMet;
  }

  lemma {:induction false} EveryCallOwned(outcomes: seq<PairOutcome>, c: VenueCall) returns (k: nat)
    requires c in AllCalls(outcomes)
    ensures k < |outcomes| && outcomes[k].Kept? && c in outcomes[k].venueCalls
  {
    AllFillsStep(outcomes);
    k := |outcomes| - 1;
    if c in AllCalls(outcomes[..k]) {
      k := EveryCallOwned(outcomes[..k], c);
    }
  }

  lemma {:induction false} OwnFillsListed(outcomes: seq<PairOutcome>, k: nat)
    requires k < |outcomes| && outcomes[k].Kept?
    ensures forall f :: f in outcomes[k].fills ==> f in AllFills(outcomes)
  {
    AllFillsStep(outcomes);
    if k < |outcomes| - 1 {
      OwnFillsListed(outcomes[..|outcomes| - 1], k);
    }
  }

  /** The oracle's price of each token of a solution. */
  function OraclePrices(tokens: seq<Address>, oracle: map<Address, OracleRow>): seq<nat>
  {
    Map(tokens, (t: Address) => if t in oracle then oracle[t].price else 0)
  }

  /** The price of a listed token: the oracle's for the quote, its own kept pair's for a base, and in
      band either way. */
  lemma TokenPriced(outcomes: seq<PairOutcome>, intents: seq<Intent>, quote: Address, oracle: map<Address, OracleRow>,
      dev: nat, venue: Venue, f: Fill, t: Address)
    requires SoundAll(outcomes, intents, quote, oracle, dev, venue)
    requires f in AllFills(outcomes) && f.index < |intents|
    requires t == quote || t == intents[f.index].sellToken || t == intents[f.index].buyToken
    ensures TokenPrice(outcomes, quote, oracle)(t).Some? && t in oracle
    ensures SolverMath.WithinBand(TokenPrice(outcomes, quote, oracle)(t).value, oracle[t].price, dev)
    ensures t == quote ==> HealthyPrice(oracle, t) == TokenPrice(outcomes, quote, oracle)(t)
  {
    var k := EveryFillOwned(outcomes, intents, quote, oracle, dev, venue, f);
    var o := outcomes[k];
    SoundParts(o, intents, quote, RefOf(oracle, quote, o.base, dev), venue);
    BasePriceIsOwn(outcomes, intents, quote, oracle, dev, venue, k);
    hide Sound, SoundAll, SolverMath.WithinBand, FillSound, BasePriceOf;
    SamePriceInBand(HealthyPrice(oracle, quote).value, dev);
    assert FillSound(f, o.base, quote, intents, HealthyPrice(oracle, quote).value, o.basePrice);
  }

  lemma SamePriceInBand(price: nat, dev: nat)
    ensures SolverMath.WithinBand(price, price, dev)
  {
    assert price * dev >= 0;
  }

  /** One used fill, once assembled, passes every per-execution check. */
  lemma AssembledFill(outcomes: seq<PairOutcome>, intents: seq<Intent>, quote: Address,
      oracle: map<Address, OracleRow>, dev: nat, venue: Venue, f: Fill)
    requires SoundAll(outcomes, intents, quote, oracle, dev, venue)
    requires f in AllFills(outcomes)
    ensures f.index < |intents|
    ensures BaselineAt(outcomes, f.index).Some? && BaselineAt(outcomes, f.index).value <= f.executedBuy
    ensures var i, price := intents[f.index], TokenPrice(outcomes, quote, oracle);
      && price(i.sellToken).Some? && price(i.buyToken).Some?
      && f.executedSell <= i.sellAmount && (f.executedSell == i.sellAmount || i.Partial())
      && SolverMath.LimitRespected(f.executedBuy, i.sellAmount, i.minBuyAmount, f.executedSell)
      && SolverMath.UniformPriceHolds(f.executedSell, f.executedBuy, price(i.sellToken).value, price(i.buyToken).value)
  {
    var k := EveryFillOwned(outcomes, intents, quote, oracle, dev, venue, f);
    var o := outcomes[k];
    SoundParts(o, intents, quote, RefOf(oracle, quote, o.base, dev), venue);
    BasePriceIsOwn(outcomes, intents, quote, oracle, dev, venue, k);
    BaselineIsOwn(outcomes, intents, quote, oracle, dev, venue, k, f);
    hide Sound, SoundAll, BaselineAt, BasePriceOf;
    assert FillSound(f, o.base, quote, intents, HealthyPrice(oracle, quote).value, o.basePrice);
  }

  /** What assemble puts in each field, fill by fill and token by token. */
  ghost predicate Built(s: Solution, outcomes: seq<PairOutcome>, intents: seq<Intent>, quote: Address,
      oracle: map<Address, OracleRow>)
  {
    var used := Used(outcomes);
    && |s.intents| == |s.executions| == |s.baselineQuotes| == |used|
    && (forall k :: 0 <= k < |used| ==> used[k].index < |intents| && s.intents[k] == intents[used[k].index])
    && (forall k :: 0 <= k < |used| ==> s.executions[k] == Execution(k, used[k].executedSell, used[k].executedBuy))
    && (forall k :: 0 <= k < |used| ==> BaselineAt(outcomes, used[k].index) == Some(s.baselineQuotes[k]))
    && s.tokens == (if s.intents == [] then [] else OrderTokens(s.intents, quote))
    && |s.prices| == |s.tokens|
    && (forall t :: 0 <= t < |s.tokens| ==> TokenPrice(outcomes, quote, oracle)(s.tokens[t]) == Some(s.prices[t]))
    && s.venueCalls == AllCalls(outcomes)
  }

  /** A token of the list is the quote or belongs to some used fill's intent. */
  lemma ListedToken(s: Solution, outcomes: seq<PairOutcome>, intents: seq<Intent>, quote: Address,
      t: Address) returns (f: Fill)
    requires |s.intents| == |Used(outcomes)|
    requires forall k :: 0 <= k < |s.intents| ==>
      Used(outcomes)[k].index < |intents| && s.intents[k] == intents[Used(outcomes)[k].index]
    requires s.tokens == (if s.intents == [] then [] else OrderTokens(s.intents, quote))
    requires t in s.tokens
    ensures f in Used(outcomes) && f.index < |intents|
    ensures t == quote || t == intents[f.index].sellToken || t == intents[f.index].buyToken
  {
    OrderTokensExact(s.intents, quote, t);
    hide Used, OrderTokens;
    var used := Used(outcomes);
    if t == quote {
      f := used[0];
    } else {
      var i :| i in s.intents && (i.sellToken == t || i.buyToken == t);
      var k :| 0 <= k < |s.intents| && s.intents[k] == i;
      f := used[k];
    }
  }

  /** Every lookup assemble makes finds its entry. */
  lemma LookupsFound(outcomes: seq<PairOutcome>, intents: seq<Intent>, quote: Address, oracle: map<Address, OracleRow>,
      dev: nat, venue: Venue)
    requires SoundAll(outcomes, intents, quote, oracle, dev, venue)
    ensures var used := Used(outcomes);
      forall k :: 0 <= k < |used| ==>
        && used[k].index < |intents|
        && PositionOf(used, used[k].index) == Some(k)
        && BaselineAt(outcomes, used[k].index).Some?
  {
    UsedFacts(outcomes, intents, quote, oracle, dev, venue);
    var used := Used(outcomes);
    hide Used, SoundAll;
    forall k | 0 <= k < |used|
      ensures used[k].index < |intents| && PositionOf(used, used[k].index) == Some(k)
        && BaselineAt(outcomes, used[k].index).Some?
    {
      assert used[k] in used;
      AssembledFill(outcomes, intents, quote, oracle, dev, venue, used[k]);
      PositionIsOwn(used, k);
    }
  }

  lemma PricesFound(s: Solution, outcomes: seq<PairOutcome>, intents: seq<Intent>, quote: Address,
      oracle: map<Address, OracleRow>, dev: nat, venue: Venue)
    requires SoundAll(outcomes, intents, quote, oracle, dev, venue)
    requires |s.intents| == |Used(outcomes)|
    requires forall k :: 0 <= k < |s.intents| ==>
      Used(outcomes)[k].index < |intents| && s.intents[k] == intents[Used(outcomes)[k].index]
    requires s.tokens == (if s.intents == [] then [] else OrderTokens(s.intents, quote))
    ensures forall t :: t in s.tokens ==> TokenPrice(outcomes, quote, oracle)(t).Some? && t in oracle
    ensures forall t :: t in s.tokens ==>
      SolverMath.WithinBand(TokenPrice(outcomes, quote, oracle)(t).value, oracle[t].price, dev)
  {
    forall t | t in s.tokens
      ensures TokenPrice(outcomes, quote, oracle)(t).Some? && t in oracle
      ensures SolverMath.WithinBand(TokenPrice(outcomes, quote, oracle)(t).value, oracle[t].price, dev)
    {
      var f := ListedToken(s, outcomes, intents, quote, t);
      assert f in AllFills(outcomes) by { UsedFacts(outcomes, intents, quote, oracle, dev, venue); }
      hide Used, OrderTokens, SoundAll, SolverMath.WithinBand;
      TokenPriced(outcomes, intents, quote, oracle, dev, venue, f, t);
    }
  }

  /** A draft that exists is built as described. */
  lemma DraftIsBuilt(intents: seq<Intent>, quote: Address, oracle: map<Address, OracleRow>, outcomes: seq<PairOutcome>)
    requires Draft(intents, quote, oracle, outcomes).Some?
    requires forall k :: 0 <= k < |Used(outcomes)| ==> PositionOf(Used(outcomes), Used(outcomes)[k].index) == Some(k)
    ensures Built(Draft(intents, quote, oracle, outcomes).value, outcomes, intents, quote, oracle)
  {
    hide Used, PositionOf, BaselineAt, OrderTokens, BasePriceOf, Concat, Map, AllSome;
  }

  lemma DraftExists(intents: seq<Intent>, quote: Address, oracle: map<Address, OracleRow>, outcomes: seq<PairOutcome>,
      dev: nat, venue: Venue)
    requires SoundAll(outcomes, intents, quote, oracle, dev, venue)
    ensures Draft(intents, quote, oracle, outcomes).Some?
    ensures forall k :: 0 <= k < |Used(outcomes)| ==> PositionOf(Used(outcomes), Used(outcomes)[k].index) == Some(k)
  {
    hide Used, SoundAll, PositionOf, BaselineAt, OrderTokens, BasePriceOf, Concat, Map, AllSome;
    LookupsFound(outcomes, intents, quote, oracle, dev, venue);
    var used := Used(outcomes);
    var chosen := AllSome(Map(used, IntentOf(intents)));
    hide Used, SoundAll, PositionOf, BaselineAt, OrderTokens, BasePriceOf, Concat, Map, AllSome;
    assert chosen.Some?;
    var tokens := if chosen.value == [] then [] else OrderTokens(chosen.value, quote);
    PricesFound(Solution(chosen.value, tokens, [], [], [], [], 0), outcomes, intents, quote, oracle, dev, venue);
    hide TokenPrice, SolverMath.WithinBand;
    assert AllSome(Map(tokens, TokenPrice(outcomes, quote, oracle))).Some?;
    assert AllSome(Map(used, ExecutionOf(used))).Some?;
    assert AllSome(Map(used, BaselineFor(outcomes))).Some?;
  }

  // ----- the assembled solution settles

  function SellPart(intents: seq<Intent>, token: Address): Fill -> int
  {
    (f: Fill) => if f.index < |intents| && intents[f.index].sellToken == token then f.executedSell else 0
  }

  function BuyPart(intents: seq<Intent>, token: Address): Fill -> int
  {
    (f: Fill) => if f.index < |intents| && intents[f.index].buyToken == token then f.executedBuy else 0
  }

  lemma {:induction false} SumByPairs<T, U>(xs: seq<T>, f: T -> int, ys: seq<U>, g: U -> int)
    requires |xs| == |ys|
    requires forall k :: 0 <= k < |xs| ==> f(xs[k]) == g(ys[k])
    ensures SumBy(xs, f) == SumBy(ys, g)
  {
    if xs != [] {
      SumByPairs(xs[..|xs| - 1], f, ys[..|ys| - 1], g);
    }
  }

  lemma TokenIndexUnique(tokens: seq<Address>, t: nat, token: Address)
    requires Distinct(tokens)
    requires t < |tokens|
    ensures TokenIndex(tokens, token) == Some(t) <==> token == tokens[t]
  {
  }

  /** The balance verify computes at position t is what the pairs leave of that token. */
  lemma BuiltBalance(s: Solution, outcomes: seq<PairOutcome>, intents: seq<Intent>, quote: Address,
      oracle: map<Address, OracleRow>, t: nat)
    requires Built(s, outcomes, intents, quote, oracle)
    requires multiset(Used(outcomes)) == multiset(AllFills(outcomes))
    requires t < |s.tokens|
    ensures SolverMath.BalanceAt(s, t) ==
      SumBy(AllFills(outcomes), FillNet(intents, s.tokens[t])) + SumBy(AllCalls(outcomes), CallNet(s.tokens[t]))
  {
    var used, token := Used(outcomes), s.tokens[t];
    BuiltSums(s, outcomes, intents, quote, oracle, t);
    CallSums(s, outcomes, intents, quote, oracle, t);
    hide Used, Built, AllFills, AllCalls, SumBy;
    SumByLinear(used, SellPart(intents, token), 1, BuyPart(intents, token), -1, FillNet(intents, token));
    SumByPermutation(used, AllFills(outcomes), FillNet(intents, token));
  }

  lemma BuiltSums(s: Solution, outcomes: seq<PairOutcome>, intents: seq<Intent>, quote: Address,
      oracle: map<Address, OracleRow>, t: nat)
    requires Built(s, outcomes, intents, quote, oracle)
    requires t < |s.tokens|
    ensures SumBy(s.executions, SolverMath.PulledAt(s.intents, s.tokens, t)) ==
      SumBy(Used(outcomes), SellPart(intents, s.tokens[t]))
    ensures SumBy(s.executions, SolverMath.DeliveredAt(s.intents, s.tokens, t)) ==
      SumBy(Used(outcomes), BuyPart(intents, s.tokens[t]))
  {
    var used, token := Used(outcomes), s.tokens[t];
    OrderTokensAscend(s.intents, quote);
    assert Distinct(s.tokens) && |used| == |s.executions|;
    hide Used, OrderTokens, TokenPrice, BaselineAt, SumBy, Built;
    forall k | 0 <= k < |used|
      ensures SolverMath.PulledAt(s.intents, s.tokens, t)(s.executions[k]) == SellPart(intents, token)(used[k])
      ensures SolverMath.DeliveredAt(s.intents, s.tokens, t)(s.executions[k]) == BuyPart(intents, token)(used[k])
    {
      BuiltAt(s, outcomes, intents, quote, oracle, k);
      TokenIndexUnique(s.tokens, t, s.intents[k].sellToken);
      TokenIndexUnique(s.tokens, t, s.intents[k].buyToken);
    }
    SumByPairs(s.executions, SolverMath.PulledAt(s.intents, s.tokens, t), used, SellPart(intents, token));
    SumByPairs(s.executions, SolverMath.DeliveredAt(s.intents, s.tokens, t), used, BuyPart(intents, token));
  }

  lemma CallSums(s: Solution, outcomes: seq<PairOutcome>, intents: seq<Intent>, quote: Address,
      oracle: map<Address, OracleRow>, t: nat)
    requires Built(s, outcomes, intents, quote, oracle)
    requires t < |s.tokens|
    ensures SumBy(s.venueCalls, SolverMath.CallDelta(s.tokens, t)) == SumBy(AllCalls(outcomes), CallNet(s.tokens[t]))
  {
    OrderTokensAscend(s.intents, quote);
    assert Distinct(s.tokens) && s.venueCalls == AllCalls(outcomes);
    hide Built, OrderTokens, AllCalls, SumBy;
    forall c: VenueCall ensures SolverMath.CallDelta(s.tokens, t)(c) == CallNet(s.tokens[t])(c) {
      TokenIndexUnique(s.tokens, t, c.tokenIn);
      TokenIndexUnique(s.tokens, t, c.tokenOut);
    }
    SumByEq(s.venueCalls, SolverMath.CallDelta(s.tokens, t), CallNet(s.tokens[t]));
  }

  lemma BuiltTokens(s: Solution, outcomes: seq<PairOutcome>, intents: seq<Intent>, quote: Address,
      oracle: map<Address, OracleRow>)
    requires Built(s, outcomes, intents, quote, oracle)
    ensures forall i :: i in s.intents ==> i.sellToken in s.tokens && i.buyToken in s.tokens
    ensures s.intents != [] ==> quote in s.tokens
  {
    hide Used, OrderTokens, TokenPrice, BaselineAt;
    forall i | i in s.intents ensures i.sellToken in s.tokens && i.buyToken in s.tokens {
      OrderTokensExact(s.intents, quote, i.sellToken);
      OrderTokensExact(s.intents, quote, i.buyToken);
    }
    OrderTokensExact(s.intents, quote, quote);
  }

  /** Entry k of the solution's lists. */
  lemma BuiltAt(s: Solution, outcomes: seq<PairOutcome>, intents: seq<Intent>, quote: Address,
      oracle: map<Address, OracleRow>, k: nat)
    requires Built(s, outcomes, intents, quote, oracle)
    requires k < |s.executions|
    ensures |s.intents| == |s.executions| == |s.baselineQuotes| == |Used(outcomes)| && |s.prices| == |s.tokens|
    ensures Used(outcomes)[k] in Used(outcomes) && Used(outcomes)[k].index < |intents|
    ensures s.intents[k] == intents[Used(outcomes)[k].index] && s.intents[k] in s.intents
    ensures s.executions[k] == Execution(k, Used(outcomes)[k].executedSell, Used(outcomes)[k].executedBuy)
    ensures BaselineAt(outcomes, Used(outcomes)[k].index) == Some(s.baselineQuotes[k])
  {
    hide Used, BaselineAt, OrderTokens, TokenPrice;
  }

  lemma BuiltPrice(s: Solution, outcomes: seq<PairOutcome>, intents: seq<Intent>, quote: Address,
      oracle: map<Address, OracleRow>, token: Address)
    requires Built(s, outcomes, intents, quote, oracle)
    requires token in s.tokens
    ensures |s.prices| == |s.tokens|
    ensures TokenPrice(outcomes, quote, oracle)(token) == Some(s.prices[TokenIndex(s.tokens, token).value])
  {
    hide Used, BaselineAt, OrderTokens, TokenPrice;
  }

  lemma BuiltExecutionOk(s: Solution, outcomes: seq<PairOutcome>, intents: seq<Intent>, quote: Address,
      oracle: map<Address, OracleRow>, dev: nat, venue: Venue, k: nat)
    requires SoundAll(outcomes, intents, quote, oracle, dev, venue)
    requires Built(s, outcomes, intents, quote, oracle)
    requires k < |s.executions|
    ensures |s.executions| == |s.baselineQuotes| && |s.prices| == |s.tokens|
    ensures Acceptance.ExecutionOk(s, k)
  {
    hide Built, SoundAll, Used, TokenPrice, BaselineAt, SolverMath.LimitRespected, SolverMath.UniformPriceHolds;
    BuiltTokens(s, outcomes, intents, quote, oracle);
    BuiltAt(s, outcomes, intents, quote, oracle, k);
    UsedFacts(outcomes, intents, quote, oracle, dev, venue);
    AssembledFill(outcomes, intents, quote, oracle, dev, venue, Used(outcomes)[k]);
    BuiltPrice(s, outcomes, intents, quote, oracle, s.intents[k].sellToken);
    BuiltPrice(s, outcomes, intents, quote, oracle, s.intents[k].buyToken);
  }

  /** Every call names tokens of the list. */
  lemma BuiltCalls(s: Solution, outcomes: seq<PairOutcome>, intents: seq<Intent>, quote: Address,
      oracle: map<Address, OracleRow>, dev: nat, venue: Venue)
    requires SoundAll(outcomes, intents, quote, oracle, dev, venue)
    requires Built(s, outcomes, intents, quote, oracle)
    ensures forall c :: c in s.venueCalls ==> c.tokenIn in s.tokens && c.tokenOut in s.tokens
  {
    hide Used, OrderTokens, TokenPrice, BaselineAt, SoundAll;
    BuiltTokens(s, outcomes, intents, quote, oracle);
    UsedFacts(outcomes, intents, quote, oracle, dev, venue);
    forall c | c in s.venueCalls ensures c.tokenIn in s.tokens && c.tokenOut in s.tokens {
      var k := EveryCallOwned(outcomes, c);
      OwnFillsListed(outcomes, k);
      CallOfFill(outcomes, intents, quote, oracle, dev, venue, k, c);
      var f := outcomes[k].fills[0];
      assert f in Used(outcomes);
      var j :| 0 <= j < |Used(outcomes)| && Used(outcomes)[j] == f;
      assert s.intents[j] in s.intents;
    }
  }

  /** A call of a sound outcome swaps the two tokens of its fills' intents. */
  lemma CallOfFill(outcomes: seq<PairOutcome>, intents: seq<Intent>, quote: Address, oracle: map<Address, OracleRow>,
      dev: nat, venue: Venue, k: nat, c: VenueCall)
    requires SoundAll(outcomes, intents, quote, oracle, dev, venue)
    requires k < |outcomes| && outcomes[k].Kept? && c in outcomes[k].venueCalls
    ensures outcomes[k].fills != [] && outcomes[k].fills[0] in outcomes[k].fills
    ensures outcomes[k].fills[0].index < |intents|
    ensures var i := intents[outcomes[k].fills[0].index];
      && (c.tokenIn == i.sellToken || c.tokenIn == i.buyToken)
      && (c.tokenOut == i.sellToken || c.tokenOut == i.buyToken)
  {
    hide Sound, Refusal, RefOf;
    var o := outcomes[k];
    assert SoundOutcome(o, intents, quote, oracle, dev, venue);
    SoundParts(o, intents, quote, RefOf(oracle, quote, o.base, dev), venue);
    assert o.fills[0] in o.fills;
  }

  /** Sound outcomes assemble into a solution that meets every integer check of the verifier. */
  lemma BuiltSettles(s: Solution, outcomes: seq<PairOutcome>, intents: seq<Intent>, quote: Address,
      oracle: map<Address, OracleRow>, dev: nat, venue: Venue)
    requires SoundAll(outcomes, intents, quote, oracle, dev, venue)
    requires Built(s, outcomes, intents, quote, oracle)
    ensures Acceptance.Settles(s, OraclePrices(s.tokens, oracle), dev)
  {
    hide Built, SoundAll, Used, AllFills, Acceptance.ExecutionOk, SolverMath.BalanceAt, SolverMath.WithinBand;
    BuiltShape(s, outcomes, intents, quote, oracle, dev, venue);
    BuiltCalls(s, outcomes, intents, quote, oracle, dev, venue);
    forall k | 0 <= k < |s.executions| ensures Acceptance.ExecutionOk(s, k) {
      BuiltExecutionOk(s, outcomes, intents, quote, oracle, dev, venue, k);
    }
    forall t | 0 <= t < |s.tokens| ensures SolverMath.BalanceAt(s, t) >= 0 {
      BuiltBalance(s, outcomes, intents, quote, oracle, t);
      AllCovered(outcomes, intents, quote, oracle, dev, venue, s.tokens[t]);
    }
  }

  lemma BuiltShape(s: Solution, outcomes: seq<PairOutcome>, intents: seq<Intent>, quote: Address,
      oracle: map<Address, OracleRow>, dev: nat, venue: Venue)
    requires SoundAll(outcomes, intents, quote, oracle, dev, venue)
    requires Built(s, outcomes, intents, quote, oracle)
    ensures |s.executions| == |s.baselineQuotes| && |s.prices| == |s.tokens|
    ensures multiset(Used(outcomes)) == multiset(AllFills(outcomes))
    ensures forall t :: 0 <= t < |s.tokens| ==>
      SolverMath.WithinBand(s.prices[t], OraclePrices(s.tokens, oracle)[t], dev)
  {
    UsedFacts(outcomes, intents, quote, oracle, dev, venue);
    PricesFound(s, outcomes, intents, quote, oracle, dev, venue);
    hide SoundAll, Used, BaselineAt, OrderTokens, TokenPrice, SolverMath.WithinBand, AllFills;
    forall t | 0 <= t < |s.tokens| ensures SolverMath.WithinBand(s.prices[t], OraclePrices(s.tokens, oracle)[t], dev) {
      assert s.tokens[t] in s.tokens;
    }
  }

  /** Where every execution is fine, the savings sum never throws. */
  lemma {:induction false} SavingsSum(s: Solution, n: nat)
    requires |s.prices| == |s.tokens| && |s.executions| == |s.baselineQuotes|
    requires forall k :: 0 <= k < |s.executions| ==> Acceptance.ExecutionOk(s, k)
    requires n <= |s.executions|
    ensures SolverMath.ClaimedSavings(s.executions[..n], s.baselineQuotes[..n], s.prices, s.intents, s.tokens).Some?
  {
    if n > 0 {
      SavingsSum(s, n - 1);
      var es, bs := s.executions[..n], s.baselineQuotes[..n];
      assert es[..n - 1] == s.executions[..n - 1] && bs[..n - 1] == s.baselineQuotes[..n - 1];
      assert Acceptance.ExecutionOk(s, n - 1);
    }
  }

  /** Whatever the intents, the venue and the profile, the solver assembles a solution without meeting a missing entry,
      and it passes every integer check of the verifier. */
  lemma SolveSettles(intents: seq<Intent>, quote: Address, oracle: map<Address, OracleRow>, dev: nat, venue: Venue,
      profile: Profile)
    requires forall t :: t in oracle ==> oracle[t].price > 0
    requires forall i :: i in intents ==> i.sellAmount > 0
    ensures var plan := SolveBatch(intents, quote, oracle, dev, venue, profile);
      && plan.solution.Some?
      && var s := plan.solution.value;
         && Built(s, plan.outcomes, intents, quote, oracle)
         && Acceptance.Settles(s, OraclePrices(s.tokens, oracle), dev)
         && (forall i :: i in s.intents ==> i.sellToken in s.tokens && i.buyToken in s.tokens)
         && SolverMath.ClaimedSavings(s.executions, s.baselineQuotes, s.prices, s.intents, s.tokens) ==
           Some(s.claimedSavings)
  {
    BatchSound(intents, quote, oracle, dev, venue, profile);
    var plan := SolveBatch(intents, quote, oracle, dev, venue, profile);
    assert plan.solution == Assemble(intents, quote, oracle, plan.outcomes);
    hide SolveBatch;
    AssembleSettles(intents, quote, oracle, plan.outcomes, dev, venue);
  }

  lemma AssembleSettles(intents: seq<Intent>, quote: Address, oracle: map<Address, OracleRow>,
      outcomes: seq<PairOutcome>, dev: nat, venue: Venue)
    requires SoundAll(outcomes, intents, quote, oracle, dev, venue)
    ensures var solution := Assemble(intents, quote, oracle, outcomes);
      && solution.Some?
      && var s := solution.value;
         && Built(s, outcomes, intents, quote, oracle)
         && Acceptance.Settles(s, OraclePrices(s.tokens, oracle), dev)
         && (forall i :: i in s.intents ==> i.sellToken in s.tokens && i.buyToken in s.tokens)
         && SolverMath.ClaimedSavings(s.executions, s.baselineQuotes, s.prices, s.intents, s.tokens) ==
           Some(s.claimedSavings)
  {
    DraftExists(intents, quote, oracle, outcomes, dev, venue);
    DraftIsBuilt(intents, quote, oracle, outcomes);
    var d := Draft(intents, quote, oracle, outcomes).value;
    hide Draft, SoundAll, Built, SolverMath.ClaimedSavings;
    BuiltSettles(d, outcomes, intents, quote, oracle, dev, venue);
    DraftSavings(d, OraclePrices(d.tokens, oracle), dev);
    hide Acceptance.Settles;
    AssembleIsDraft(intents, quote, oracle, outcomes, d);
    hide Assemble, OraclePrices;
    var s := Assemble(intents, quote, oracle, outcomes).value;
    BuiltAgain(d, s, outcomes, intents, quote, oracle);
    SettlesAgain(d, s, OraclePrices(d.tokens, oracle), dev);
    BuiltTokens(s, outcomes, intents, quote, oracle);
  }

  lemma BuiltAgain(d: Solution, s: Solution, outcomes: seq<PairOutcome>, intents: seq<Intent>, quote: Address,
      oracle: map<Address, OracleRow>)
    requires Built(d, outcomes, intents, quote, oracle)
    requires s == d.(claimedSavings := s.claimedSavings)
    ensures Built(s, outcomes, intents, quote, oracle)
  {
    hide Used, TokenPrice, BaselineAt, OrderTokens;
  }

  lemma AssembleIsDraft(intents: seq<Intent>, quote: Address, oracle: map<Address, OracleRow>,
      outcomes: seq<PairOutcome>, d: Solution)
    requires Draft(intents, quote, oracle, outcomes) == Some(d)
    requires Built(d, outcomes, intents, quote, oracle)
    requires SolverMath.ClaimedSavings(d.executions, d.baselineQuotes, d.prices, d.intents, d.tokens).Some?
    requires d.executions == [] ==>
      SolverMath.ClaimedSavings(d.executions, d.baselineQuotes, d.prices, d.intents, d.tokens) == Some(0)
    ensures Assemble(intents, quote, oracle, outcomes) == Some(d.(claimedSavings :=
      SolverMath.ClaimedSavings(d.executions, d.baselineQuotes, d.prices, d.intents, d.tokens).value))
  {
    hide Draft, Used, TokenPrice, BaselineAt, OrderTokens, SolverMath.ClaimedSavings;
  }

  lemma DraftSavings(d: Solution, prices: seq<nat>, dev: nat)
    requires Acceptance.Settles(d, prices, dev)
    ensures SolverMath.ClaimedSavings(d.executions, d.baselineQuotes, d.prices, d.intents, d.tokens).Some?
    ensures d.executions == [] ==>
      SolverMath.ClaimedSavings(d.executions, d.baselineQuotes, d.prices, d.intents, d.tokens) == Some(0)
  {
    SavingsSum(d, |d.executions|);
    assert d.executions[..|d.executions|] == d.executions && d.baselineQuotes[..|d.executions|] == d.baselineQuotes;
  }

  /** The checks do not look at the claimed figure. */
  lemma SettlesAgain(d: Solution, s: Solution, oracle: seq<nat>, dev: nat)
    requires Acceptance.Settles(d, oracle, dev)
    requires s == d.(claimedSavings := s.claimedSavings)
    ensures Acceptance.Settles(s, oracle, dev)
  {
    forall k | 0 <= k < |s.executions| ensures Acceptance.ExecutionOk(s, k) {
      assert Acceptance.ExecutionOk(d, k);
    }
    forall t | 0 <= t < |s.tokens| ensures SolverMath.BalanceAt(s, t) >= 0 {
      assert SolverMath.BalanceAt(d, t) >= 0;
    }
  }

  /** The main result. With its sizes in range, whatever the solver assembles is accepted by the verifier after packing,
      and verify returns exactly the savings the solver claims. */
  lemma SolveAccepted(intents: seq<Intent>, quote: Address, oracle: map<Address, OracleRow>, dev: Verifier.U16,
      venue: Venue, profile: Profile)
    requires forall t :: t in oracle ==> oracle[t].price > 0
    requires forall i :: i in intents ==> i.sellAmount > 0
    ensures var solution := SolveBatch(intents, quote, oracle, dev, venue, profile).solution;
      && solution.Some?
      && var s, prices := solution.value, OraclePrices(solution.value.tokens, oracle);
         Acceptance.InRange(s, prices) ==>
           && Acceptance.Ready(s, prices, dev)
           && s.claimedSavings < Verifier.TWO_256
           && Verifier.Outcome(Acceptance.InputOf(s, prices, dev)) == Ok(s.claimedSavings)
  {
    hide *;
    SolveSettles(intents, quote, oracle, dev, venue, profile);
    var s := SolveBatch(intents, quote, oracle, dev, venue, profile).solution.value;
    var prices := OraclePrices(s.tokens, oracle);
    if Acceptance.InRange(s, prices) {
      SettledIsAccepted(s, prices, dev);
    }
  }

  lemma SettledIsAccepted(s: Solution, prices: seq<nat>, dev: Verifier.U16)
    requires Acceptance.Settles(s, prices, dev) && Acceptance.InRange(s, prices)
    requires forall i :: i in s.intents ==> i.sellToken in s.tokens && i.buyToken in s.tokens
    requires SolverMath.ClaimedSavings(s.executions, s.baselineQuotes, s.prices, s.intents, s.tokens) ==
      Some(s.claimedSavings)
    ensures Acceptance.Ready(s, prices, dev) && s.claimedSavings < Verifier.TWO_256
    ensures Verifier.Outcome(Acceptance.InputOf(s, prices, dev)) == Ok(s.claimedSavings)
  {
    hide Acceptance.Settles, Acceptance.InRange, SolverMath.ClaimedSavings, Verifier.Outcome;
    assert Acceptance.Ready(s, prices, dev);
    hide Acceptance.Ready;
    Acceptance.Accepted(s, prices, dev);
  }
}
