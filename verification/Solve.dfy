/** From intents and one block of chain state to a Solution (solver/src/solve.ts). */
module Solve {
  import opened Common
  import opened Sorting
  import opened Solutions
  import opened Clearing
  import opened Allocation
  import SolverMath

  /** The venue's quote for selling an amount of one token for another, or None where it cannot quote. */
  type Venue = (Address, Address, nat) -> Option<nat>

  /** A token the oracle has no row for, or only an error, is absent. */
  datatype OracleRow = OracleRow(price: nat, healthy: bool)

  datatype Profile = Netting | RoutingOnly

  datatype SkipReason =
    | NoOraclePrice
    | NoCross
    | NoFill
    | CannotQuote
    | WorseThanBaseline
    | NoRoomToFloor
    | RouteFailed
    | NothingToRoute
    | OutsideBand
    | NonUniformVenue
    | LimitsAboveVenue

  datatype Mode = Netted | Routed

  datatype PairOutcome =
    | Skipped(base: Address, reason: SkipReason)
    | Kept(base: Address, mode: Mode, fills: seq<Fill>, baselines: map<nat, nat>, basePrice: nat,
      venueCalls: seq<VenueCall>)

  // ----- pairs

  /** The base token of an intent that trades against the quote, None for any other intent. */
  function BaseOf(i: Intent, quote: Address): Option<Address>
  {
    if (i.sellToken == quote) == (i.buyToken == quote) then None
    else Some(if i.sellToken == quote then i.buyToken else i.sellToken)
  }

  /** The entries of one base, in intent order. */
  function EntriesFor(intents: seq<Intent>, quote: Address, base: Address): seq<BookEntry>
  {
    if intents == [] then []
    else
      var n := |intents| - 1;
      var rest := EntriesFor(intents[..n], quote, base);
      if BaseOf(intents[n], quote) == Some(base) then rest + [BookEntry(n, intents[n])] else rest
  }

  /** Each base once, in the order the intents first name it. */
  function BasesOf(intents: seq<Intent>, quote: Address): (r: seq<Address>)
    ensures Distinct(r)
    ensures forall b :: b in r ==> b != quote
  {
    if intents == [] then []
    else
      var rest, base := BasesOf(intents[..|intents| - 1], quote), BaseOf(intents[|intents| - 1], quote);
      if base.Some? && base.value !in rest then rest + [base.value] else rest
  }

  function PairFor(intents: seq<Intent>, quote: Address): Address -> Pair
  {
    (base: Address) => Pair(base, quote, EntriesFor(intents, quote, base))
  }

  /** One pair per base, ascending by base address. */
  function PairsOf(intents: seq<Intent>, quote: Address): seq<Pair>
  {
    Map(Sort(BasesOf(intents, quote), AddressLe()), PairFor(intents, quote))
  }

  /** A pair cut from a list of intents: entries point at their own intents and trade base against quote. */
  ghost predicate PairOk(pair: Pair, intents: seq<Intent>)
  {
    && pair.base != pair.quote
    && DistinctEntries(pair.entries)
    && forall e :: e in pair.entries ==>
         && e.index < |intents| && intents[e.index] == e.intent
         && BaseOf(e.intent, pair.quote) == Some(pair.base)
  }

  lemma {:induction false} EntriesForOk(intents: seq<Intent>, quote: Address, base: Address)
    ensures DistinctEntries(EntriesFor(intents, quote, base))
    ensures forall e :: e in EntriesFor(intents, quote, base) ==>
      e.index < |intents| && intents[e.index] == e.intent && BaseOf(e.intent, quote) == Some(base)
  {
    hide BaseOf;
    if intents != [] {
      var init := intents[..|intents| - 1];
      EntriesForOk(init, quote, base);
      var rest := EntriesFor(init, quote, base);
      forall j | 0 <= j < |rest| ensures rest[j].index < |init| {
        assert rest[j] in rest;
      }
    }
  }

  lemma PairsOk(intents: seq<Intent>, quote: Address)
    ensures forall p :: p in PairsOf(intents, quote) ==> PairOk(p, intents) && p.quote == quote
    ensures forall j, k :: 0 <= j < k < |PairsOf(intents, quote)| ==>
      PairsOf(intents, quote)[j].base != PairsOf(intents, quote)[k].base
  {
    var bases := BasesOf(intents, quote);
    SortPermutes(bases, AddressLe());
    DistinctPermutes(bases, Sort(bases, AddressLe()));
    forall p | p in PairsOf(intents, quote) ensures PairOk(p, intents) && p.quote == quote {
      EntriesForOk(intents, quote, p.base);
      var k :| 0 <= k < |PairsOf(intents, quote)| && PairsOf(intents, quote)[k] == p;
      assert Sort(bases, AddressLe())[k] in Sort(bases, AddressLe());
    }
  }

  // ----- netting

  function SellOf(): Fill -> int { (f: Fill) => f.executedSell }

  function BuyOf(): Fill -> int { (f: Fill) => f.executedBuy }

  function BaselineOf(m: map<nat, nat>): Fill -> int
  {
    (f: Fill) => if f.index in m then m[f.index] else 0
  }

  /** The fill's intent sells this token. */
  function Selling(pair: Pair, token: Address): Fill -> bool
  {
    (f: Fill) => match IntentAt(pair.entries, f.index) case Some(i) => i.sellToken == token case None => false
  }

  predicate Indexed(pair: Pair, fills: seq<Fill>)
  {
    forall f :: f in fills ==> IntentAt(pair.entries, f.index).Some?
  }

  /** The venue's quote on each fill alone; refused at the first fill that cannot be quoted or does worse. */
  function OwnBaselines(pair: Pair, fills: seq<Fill>, venue: Venue): Result<map<nat, nat>, SkipReason>
    requires Indexed(pair, fills)
  {
    if fills == [] then Ok(map[])
    else
      var f := fills[|fills| - 1];
      assert f in fills;
      var i := IntentAt(pair.entries, f.index).value;
      var rest :- OwnBaselines(pair, fills[..|fills| - 1], venue);
      match venue(i.sellToken, i.buyToken, f.executedSell)
      case None => Err(CannotQuote)
      case Some(out) => if f.executedBuy < out then Err(WorseThanBaseline) else Ok(rest[f.index := out])
  }

  /** The tokens the fills sell, each once, in order of first sale. */
  function SellTokens(pair: Pair, fills: seq<Fill>): (r: seq<Address>)
    requires Indexed(pair, fills)
    ensures Distinct(r)
  {
    if fills == [] then []
    else
      var f := fills[|fills| - 1];
      assert f in fills;
      var rest, token := SellTokens(pair, fills[..|fills| - 1]), IntentAt(pair.entries, f.index).value.sellToken;
      if token in rest then rest else rest + [token]
  }

  /** Writes one value per fill into the map. */
  function SetAll(m: map<nat, nat>, fills: seq<Fill>, values: seq<nat>): map<nat, nat>
    requires |fills| == |values|
  {
    if fills == [] then m
    else SetAll(m, fills[..|fills| - 1], values[..|fills| - 1])[fills[|fills| - 1].index := values[|fills| - 1]]
  }

  function Baselines(m: map<nat, nat>, fills: seq<Fill>): (r: seq<nat>)
    ensures |r| == |fills|
  {
    Map(fills, (f: Fill) => if f.index in m then m[f.index] else 0)
  }

  function ExecutedBuys(fills: seq<Fill>): (r: seq<nat>)
    ensures |r| == |fills|
  {
    Map(fills, (f: Fill) => f.executedBuy)
  }

  function Total(fills: seq<Fill>): nat
  {
    SumByNonNegative(fills, SellOf());
    SumBy(fills, SellOf())
  }

  function Naturals(xs: seq<int>): (r: seq<nat>)
    ensures |r| == |xs|
    ensures forall k :: 0 <= k < |xs| && xs[k] >= 0 ==> r[k] == xs[k]
  {
    Map(xs, (x: int) => if x < 0 then 0 else x)
  }

  /** One direction's baselines lifted to the venue's quote on its whole volume. */
  function LiftDirection(pair: Pair, fills: seq<Fill>, venue: Venue, token: Address,
      m: map<nat, nat>): Result<map<nat, nat>, SkipReason>
    requires Indexed(pair, fills)
    requires Filter(fills, Selling(pair, token)) != []
  {
    var direction := Filter(fills, Selling(pair, token));
    assert direction[0] in direction;
    var buyToken := IntentAt(pair.entries, direction[0].index).value.buyToken;
    match venue(token, buyToken, Total(direction))
    case None => Err(CannotQuote)
    case Some(floor) =>
      match SolverMath.Raised(Baselines(m, direction), ExecutedBuys(direction), floor)
      case None => Err(NoRoomToFloor)
      case Some(raised) =>
        SolverMath.RaisedMeetsFloor(Baselines(m, direction), ExecutedBuys(direction), floor);
        Ok(SetAll(m, direction, Naturals(raised)))
  }

  lemma {:induction false} SellTokensSell(pair: Pair, fills: seq<Fill>)
    requires Indexed(pair, fills)
    ensures forall t :: t in SellTokens(pair, fills) <==> Filter(fills, Selling(pair, t)) != []
  {
    if fills != [] {
      var init, f := fills[..|fills| - 1], fills[|fills| - 1];
      assert f in fills;
      SellTokensSell(pair, init);
    }
  }

  /** The directions of `tokens`, one after another. */
  function LiftAll(pair: Pair, fills: seq<Fill>, venue: Venue, tokens: seq<Address>,
      m: map<nat, nat>): Result<map<nat, nat>, SkipReason>
    requires Indexed(pair, fills)
    requires forall t :: t in tokens ==> Filter(fills, Selling(pair, t)) != []
  {
    if tokens == [] then Ok(m)
    else
      var before :- LiftAll(pair, fills, venue, tokens[..|tokens| - 1], m);
      LiftDirection(pair, fills, venue, tokens[|tokens| - 1], before)
  }

  /** The minimum output for a residual: the venue's quote, or zero when it cannot quote. */
  function QuoteNeed(venue: Venue, need: VenueNeed): nat
  {
    match venue(need.tokenIn, need.tokenOut, need.amountIn) case Some(out) => out case None => 0
  }

  function VenueOut(venue: Venue): VenueNeed -> nat
  {
    (need: VenueNeed) => QuoteNeed(venue, need)
  }

  function TryNetted(pair: Pair, ref: Reference, venue: Venue): PairOutcome
    requires ref.quotePrice > 0
    requires DistinctEntries(pair.entries)
  {
    match Clear(pair, ref)
    case None => Skipped(pair.base, NoCross)
    case Some(clearing) =>
      if clearing.executable == 0 then Skipped(pair.base, NoCross)
      else
        var a := Allocate(pair, clearing.price, ref, 0);
        if a.fills == [] then Skipped(pair.base, NoFill)
        else
          AllocationIndexed(pair, clearing.price, ref, 0);
          SellTokensSell(pair, a.fills);
          var baselines := LiftedBaselines(pair, a.fills, venue);
          if baselines.Err? then Skipped(pair.base, baselines.error)
          else match Route(pair, a.fills, VenueOut(venue))
            case Err(_) => Skipped(pair.base, RouteFailed)
            case Ok(calls) => Kept(pair.base, Netted, a.fills, baselines.value, a.basePrice, calls)
  }

  /** Every fill's baseline: its own quote, lifted so that each direction reaches the venue floor. */
  function LiftedBaselines(pair: Pair, fills: seq<Fill>, venue: Venue): Result<map<nat, nat>, SkipReason>
    requires Indexed(pair, fills)
  {
    SellTokensSell(pair, fills);
    var own :- OwnBaselines(pair, fills, venue);
    LiftAll(pair, fills, venue, SellTokens(pair, fills), own)
  }

  // ----- routing

  function SellAmountOf(): BookEntry -> int { (e: BookEntry) => e.intent.sellAmount }

  function UsdOf(price: nat): BookEntry -> int { (e: BookEntry) => e.intent.sellAmount * price / WAD }

  function SellsQuote(quote: Address): BookEntry -> bool { (e: BookEntry) => e.intent.sellToken == quote }

  function SellsBase(quote: Address): BookEntry -> bool { (e: BookEntry) => e.intent.sellToken != quote }

  predicate AllSell(entries: seq<BookEntry>)
  {
    forall e :: e in entries ==> e.intent.sellAmount > 0
  }

  lemma SidePositive(side: seq<BookEntry>)
    ensures SumBy(side, SellAmountOf()) >= 0
    ensures AllSell(side) && side != [] ==> SumBy(side, SellAmountOf()) > 0
  {
    SumByNonNegative(side, SellAmountOf());
    if side != [] {
      assert side[0] in side;
      SumByTerm(side, 0, SellAmountOf());
    }
  }

  function SideTotal(side: seq<BookEntry>): (r: nat)
    ensures AllSell(side) && side != [] ==> r > 0
  {
    SidePositive(side);
    SumBy(side, SellAmountOf())
  }

  /** An entry's floored share of what came back. */
  function ShareFill(out: nat, total: nat): BookEntry -> Fill
    requires total > 0
  {
    (e: BookEntry) => Fill(e.index, e.intent.sellAmount, out * e.intent.sellAmount / total)
  }

  /** The floored shares of a part of the side do not exceed what came back. */
  lemma {:induction false} SharesWithinOut(part: seq<BookEntry>, out: nat, total: nat)
    requires total > 0
    ensures SumBy(Map(part, ShareFill(out, total)), BuyOf()) * total <= out * SumBy(part, SellAmountOf())
  {
    if part != [] {
      var init, e := part[..|part| - 1], part[|part| - 1];
      SharesWithinOut(init, out, total);
      var fills := Map(part, ShareFill(out, total));
      assert fills[..|init|] == Map(init, ShareFill(out, total));
      FloorDiv(out * e.intent.sellAmount, total, 0);
      Spread(SumBy(fills[..|init|], BuyOf()), out * e.intent.sellAmount / total, total);
      Spread(SumBy(init, SellAmountOf()), e.intent.sellAmount, out);
    }
  }

  lemma GivenWithin(side: seq<BookEntry>, out: nat)
    requires side != [] && AllSell(side)
    ensures 0 <= SumBy(Map(side[..|side| - 1], ShareFill(out, SideTotal(side))), BuyOf()) <= out
  {
    var init, total := side[..|side| - 1], SideTotal(side);
    var fills := Map(init, ShareFill(out, total));
    SharesWithinOut(init, out, total);
    SumByNonNegative(fills, BuyOf());
    assert side[|side| - 1] in side;
    MulMono(SumBy(init, SellAmountOf()), total, out);
    MulCancel(SumBy(fills, BuyOf()), out, total);
  }

  /** Pro rata shares, the last entry taking the remainder. */
  function SplitOut(side: seq<BookEntry>, out: nat): (r: seq<Fill>)
    requires side != [] && AllSell(side)
    ensures |r| == |side|
    ensures forall k :: 0 <= k < |side| ==>
      r[k].index == side[k].index && r[k].executedSell == side[k].intent.sellAmount
    ensures SumBy(r, BuyOf()) == out
  {
    var init, last := side[..|side| - 1], side[|side| - 1];
    GivenWithin(side, out);
    var shares := Map(init, ShareFill(out, SideTotal(side)));
    var rest := Fill(last.index, last.intent.sellAmount, out - SumBy(shares, BuyOf()));
    SumByAppend(shares, [rest], BuyOf());
    assert [rest][..0] == [];
    shares + [rest]
  }

  predicate Broken(i: Intent, f: Fill)
  {
    f.executedBuy == 0 || !SolverMath.LimitRespected(f.executedBuy, i.sellAmount, i.minBuyAmount, f.executedSell)
  }

  /** The first entry whose share breaks it. */
  function FirstBroken(side: seq<BookEntry>, fills: seq<Fill>): (r: Option<BookEntry>)
    requires |side| == |fills|
    ensures r.Some? ==> r.value in side
    ensures r.None? ==> forall k :: 0 <= k < |side| ==> !Broken(side[k].intent, fills[k])
  {
    if side == [] then None
    else
      var n := |side| - 1;
      match FirstBroken(side[..n], fills[..n])
      case Some(e) => Some(e)
      case None => if Broken(side[n].intent, fills[n]) then Some(side[n]) else None
  }

  /** The base unit price one fill implies: floored for a buyer, rounded up for a seller. */
  function Implied(f: Fill, buying: bool, q: nat): nat
  {
    if f.executedSell == 0 || f.executedBuy == 0 then 0
    else if buying then f.executedSell * q / f.executedBuy
    else CeilDiv(f.executedBuy * q, f.executedSell)
  }

  /** The lowest price the buyers imply, or the highest the sellers imply. */
  function WorstImplied(fills: seq<Fill>, buying: bool, q: nat): nat
    requires fills != []
  {
    var last := Implied(fills[|fills| - 1], buying, q);
    if |fills| == 1 then last
    else
      var rest := WorstImplied(fills[..|fills| - 1], buying, q);
      if buying then (if rest < last then rest else last) else (if rest > last then rest else last)
  }

  predicate UniformAt(f: Fill, buying: bool, q: nat, b: nat)
  {
    if buying then SolverMath.UniformPriceHolds(f.executedSell, f.executedBuy, q, b)
    else SolverMath.UniformPriceHolds(f.executedSell, f.executedBuy, b, q)
  }

  function BuyMap(fills: seq<Fill>): map<nat, nat>
  {
    SetAll(map[], fills, ExecutedBuys(fills))
  }

  function OtherEntry(index: nat): BookEntry -> bool { (e: BookEntry) => e.index != index }

  lemma {:induction false} EntriesShorter(es: seq<BookEntry>, p: BookEntry -> bool, e: BookEntry)
    requires e in es && !p(e)
    ensures |Filter(es, p)| < |es|
  {
    var init, last := es[..|es| - 1], es[|es| - 1];
    if p(last) {
      assert e in init;
      EntriesShorter(init, p, e);
    }
  }

  /** The whole side to the venue in one call; an intent its share would break is dropped and the rest tried again. */
  function RouteSide(pair: Pair, side: seq<BookEntry>, buying: bool, ref: Reference, venue: Venue): PairOutcome
    requires AllSell(side)
    decreases |side|
  {
    if side == [] then Skipped(pair.base, LimitsAboveVenue)
    else
      var tokenIn := if buying then pair.quote else pair.base;
      var tokenOut := if buying then pair.base else pair.quote;
      match venue(tokenIn, tokenOut, SideTotal(side))
      case None => Skipped(pair.base, CannotQuote)
      case Some(out) =>
        var fills := SplitOut(side, out);
        match FirstBroken(side, fills)
        case Some(e) =>
          EntriesShorter(side, OtherEntry(e.index), e);
          RouteSide(pair, Filter(side, OtherEntry(e.index)), buying, ref, venue)
        case None =>
          var basePrice := WorstImplied(fills, buying, ref.quotePrice);
          if !SolverMath.WithinBand(basePrice, ref.basePrice, ref.maxDeviationBps) then Skipped(pair.base, OutsideBand)
          else if exists f ::
            f in fills && !UniformAt(f, buying, ref.quotePrice, basePrice) then Skipped(pair.base, NonUniformVenue)
          else Kept(pair.base, Routed, fills, BuyMap(fills), basePrice,
            [VenueCall(tokenIn, tokenOut, SideTotal(side), out)])
  }

  function TryRouted(pair: Pair, ref: Reference, venue: Venue): PairOutcome
    requires AllSell(pair.entries)
  {
    var buys, sells := Filter(pair.entries, SellsQuote(pair.quote)), Filter(pair.entries, SellsBase(pair.quote));
    var buying := SumBy(buys, UsdOf(ref.quotePrice)) >= SumBy(sells, UsdOf(ref.basePrice));
    var side := if buying then buys else sells;
    if side == [] then Skipped(pair.base, NothingToRoute) else RouteSide(pair, side, buying, ref, venue)
  }

  /** Profile b: each direction on its own, under the buy side's price when it suits both. */
  function RouteEverything(pair: Pair, ref: Reference, venue: Venue): PairOutcome
    requires AllSell(pair.entries)
  {
    var buys, sells := Filter(pair.entries, SellsQuote(pair.quote)), Filter(pair.entries, SellsBase(pair.quote));
    var buy := if buys == [] then Skipped(pair.base, NothingToRoute) else TryRouted(pair.(entries := buys), ref, venue);
    var sell := if sells == []
      then Skipped(pair.base, NothingToRoute) else TryRouted(pair.(entries := sells), ref, venue);
    if buy.Skipped? && sell.Skipped? then Skipped(pair.base, if buys == [] then sell.reason else buy.reason)
    else if sell.Skipped? then buy
    else if buy.Skipped? then sell
    else if (forall f :: f in buy.fills ==> UniformAt(f, true, ref.quotePrice, buy.basePrice))
         && (forall f :: f in sell.fills ==> UniformAt(f, false, ref.quotePrice, buy.basePrice))
      then Kept(pair.base, Routed, buy.fills + sell.fills, buy.baselines + sell.baselines, buy.basePrice,
        buy.venueCalls + sell.venueCalls)
    else if buy.venueCalls == [] || sell.venueCalls == [] then buy
    else if buy.venueCalls[0].amountIn * ref.quotePrice >= sell.venueCalls[0].amountIn * ref.basePrice then buy
    else sell
  }

  // ----- the plan

  function HealthyPrice(oracle: map<Address, OracleRow>, token: Address): Option<nat>
  {
    if token in oracle && oracle[token].healthy then Some(oracle[token].price) else None
  }

  function SolvePair(pair: Pair, oracle: map<Address, OracleRow>, maxDeviationBps: nat, venue: Venue,
      profile: Profile): PairOutcome
    requires forall t :: t in oracle ==> oracle[t].price > 0
    requires DistinctEntries(pair.entries) && AllSell(pair.entries)
  {
    var q, b := HealthyPrice(oracle, pair.quote), HealthyPrice(oracle, pair.base);
    if q.None? || b.None? then Skipped(pair.base, NoOraclePrice)
    else
      var ref := Reference(q.value, b.value, maxDeviationBps);
      if profile == RoutingOnly then RouteEverything(pair, ref, venue)
      else
        var netted := TryNetted(pair, ref, venue);
        if netted.Kept? then netted else TryRouted(pair, ref, venue)
  }
}
