/** Planning a cross and checking it as the contract would (solver/src/cross.ts, planCross and checkCross). */
module CrossPlan {
  import opened Common
  import opened Sorting
  import opened Solutions
  import opened Cross
  import opened Shares
  import SolverMath

  datatype CrossError =
    | ExecutionsNotAscending(at: nat)
    | CommitmentNotEscrowed(at: nat)
    | LimitNotRespected(at: nat, limit: int, price: nat)
    | FillExceedsEscrow(at: nat)
    | UniformPriceViolated(at: nat, expected: int, executedBuy: nat)
    | DividesByZero
    | ValueNotConserved(received: int, paid: int)
    | NothingMatched
    | VolumeBelowMatchable(volume: int, matched: int)

  // ----- checkCross

  datatype Flows = Flows(tokenIn: int, tokenOut: int, quoteIn: int, quoteOut: int)

  /** Execution k judged and added to the flows. */
  function CheckOne(book: seq<Commitment>, day: Day, price: nat, es: seq<Execution>, k: nat,
      f: Flows): Result<Flows, CrossError>
    requires k < |es|
  {
    var x := es[k];
    if k > 0 && x.intentIndex <= es[k - 1].intentIndex then Err(ExecutionsNotAscending(k)) else
    if x.intentIndex >= |book| then Err(CommitmentNotEscrowed(k)) else
    var c := book[x.intentIndex];
    if !c.escrowed || c.cancelled then Err(CommitmentNotEscrowed(k)) else
    var l := EffectiveLimit(c, day);
    if !l.participating then Err(LimitNotRespected(k, 0, price)) else
    if c.buy && l.limit != 0 && price > l.limit then Err(LimitNotRespected(k, l.limit, price)) else
    if !c.buy && l.limit != 0 && price < l.limit then Err(LimitNotRespected(k, l.limit, price)) else
    if x.executedSell > c.Remaining() then Err(FillExceedsEscrow(k)) else
    if c.buy && price == 0 then Err(DividesByZero) else
    var expected := if c.buy then TokenOf(x.executedSell, price) else QuoteOf(x.executedSell, price);
    if x.executedBuy != expected then Err(UniformPriceViolated(k, expected, x.executedBuy)) else
    if c.buy then Ok(f.(quoteIn := f.quoteIn + x.executedSell, tokenOut := f.tokenOut + x.executedBuy))
    else Ok(f.(tokenIn := f.tokenIn + x.executedSell, quoteOut := f.quoteOut + x.executedBuy))
  }

  /** The flows of the first n executions, or the first error. */
  function CheckRun(book: seq<Commitment>, day: Day, price: nat, es: seq<Execution>, n: nat): Result<Flows, CrossError>
    requires n <= |es|
  {
    if n == 0 then Ok(Flows(0, 0, 0, 0))
    else
      var f :- CheckRun(book, day, price, es, n - 1);
      CheckOne(book, day, price, es, n - 1, f)
  }

  /** The error the contract would revert with, or None. */
  function CheckCross(book: seq<Commitment>, day: Day, price: nat, es: seq<Execution>): Option<CrossError>
  {
    match CheckRun(book, day, price, es, |es|)
    case Err(e) => Some(e)
    case Ok(f) =>
      var matched := Match(book, price, day).matched;
      if f.tokenIn < f.tokenOut then Some(ValueNotConserved(f.tokenIn, f.tokenOut)) else
      if f.quoteIn < f.quoteOut then Some(ValueNotConserved(f.quoteIn, f.quoteOut)) else
      if matched == 0 then Some(NothingMatched) else
      if f.tokenOut + |es| < matched then Some(VolumeBelowMatchable(f.tokenOut, matched)) else None
  }

  lemma {:induction false} CheckErrorSticks(book: seq<Commitment>, day: Day, price: nat, es: seq<Execution>, n: nat,
      m: nat)
    requires n <= m <= |es|
    requires CheckRun(book, day, price, es, n).Err?
    ensures CheckRun(book, day, price, es, m) == CheckRun(book, day, price, es, n)
  {
    if n < m { CheckErrorSticks(book, day, price, es, n, m - 1); }
  }

  /** checkCross' loop over the executions. */
  method CheckLoop(book: seq<Commitment>, day: Day, price: nat, es: seq<Execution>) returns (r: Option<CrossError>)
    ensures r == CheckCross(book, day, price, es)
  {
    var f := Flows(0, 0, 0, 0);
    for k := 0 to |es|
      invariant CheckRun(book, day, price, es, k) == Ok(f)
    {
      hide CheckOne;
      var next := CheckOne(book, day, price, es, k, f);
      if next.Err? {
        CheckErrorSticks(book, day, price, es, k + 1, |es|);
        return Some(next.error);
      }
      f := next.value;
    }
    if f.tokenIn < f.tokenOut { return Some(ValueNotConserved(f.tokenIn, f.tokenOut)); }
    if f.quoteIn < f.quoteOut { return Some(ValueNotConserved(f.quoteIn, f.quoteOut)); }
    var m := MatchLoop(book, price, day);
    if m.matched == 0 { return Some(NothingMatched); }
    r := if f.tokenOut + |es| < m.matched then Some(VolumeBelowMatchable(f.tokenOut, m.matched)) else None;
  }

  // ----- planCross

  function Buyer(price: nat, day: Day): Commitment -> bool
    requires price > 0
  {
    (c: Commitment) => c.buy && InAt(c, price, day) && TokenOf(c.Remaining(), price) > 0
  }

  function Seller(price: nat, day: Day): Commitment -> bool
  {
    (c: Commitment) => !c.buy && InAt(c, price, day) && c.Remaining() > 0
  }

  function TokensFor(price: nat): Commitment -> int
    requires price > 0
  {
    (c: Commitment) => TokenOf(c.Remaining(), price)
  }

  function RemainingOf(): Commitment -> int { (c: Commitment) => c.Remaining() }

  function Size(): Commitment -> nat { (c: Commitment) => if c.Remaining() < 0 then 0 else c.Remaining() }

  function Id(): Commitment -> nat { (c: Commitment) => c.index }

  function BuyExecution(price: nat): Commitment -> Execution
    requires price > 0
  {
    (c: Commitment) =>
      var tokens := TokenOf(c.Remaining(), price);
      Execution(c.index, if c.Remaining() < 0 then 0 else c.Remaining(), if tokens < 0 then 0 else tokens)
  }

  /** The sellers' executions, those with nothing to give left out. */
  function SellExecutions(sells: seq<Commitment>, xs: seq<nat>, price: nat): seq<Execution>
    requires |xs| == |sells|
  {
    if sells == [] then []
    else
      var n := |sells| - 1;
      var rest := SellExecutions(sells[..n], xs[..n], price);
      if xs[n] == 0 then rest else rest + [Execution(sells[n].index, xs[n], QuoteOf(xs[n], price))]
  }

  function ByIntentIndex(): (Execution, Execution) -> bool { (a: Execution, b: Execution) =>
      a.intentIndex <= b.intentIndex }

  datatype CrossRefusal =
    | AboveCollarHigh
    | DemandExceedsSupply
    | PriceZero
    | NothingMatches(price: nat)
    | SellersShort(available: int, target: int)
    | CouldNotPlace(left: int)
    | CheckFailed(error: CrossError)

  datatype Plan = Plan(price: nat, matched: int, executions: seq<Execution>)

  function CollarLow(ref: nat, collarBps: nat): int { TruncDiv(ref * (BPS - collarBps), BPS) }

  function CollarHigh(ref: nat, collarBps: nat): nat { ref * (BPS + collarBps) / BPS }

  function Start(ref: nat, collarBps: nat, preferred: nat): nat
  {
    var low := CollarLow(ref, collarBps);
    if preferred < low then low else preferred
  }

  function SplitOf(book: seq<Commitment>, price: nat, day: Day, target: nat, available: nat): (r: Split)
    ensures |r.ids| == |r.sizes| == |Filter(book, Seller(price, day))|
  {
    var sells := Filter(book, Seller(price, day));
    Split(Map(sells, Size()), Map(sells, Id()), target, available)
  }

  /** Both sides' executions, ascending by intent. */
  function Executions(book: seq<Commitment>, price: nat, day: Day, xs: seq<nat>): seq<Execution>
    requires price > 0
    requires |xs| == |Filter(book, Seller(price, day))|
  {
    Sort(Map(Filter(book, Buyer(price, day)), BuyExecution(price)) +
      SellExecutions(Filter(book, Seller(price, day)), xs, price), ByIntentIndex())
  }

  /** What the buyers take in full. */
  function Target(book: seq<Commitment>, price: nat, day: Day): nat
    requires price > 0
  {
    SumByNonNegative(Filter(book, Buyer(price, day)), TokensFor(price));
    SumBy(Filter(book, Buyer(price, day)), TokensFor(price))
  }

  /** What the sellers hold. */
  function Available(book: seq<Commitment>, price: nat, day: Day): nat
  {
    SumByNonNegative(Filter(book, Seller(price, day)), RemainingOf());
    SumBy(Filter(book, Seller(price, day)), RemainingOf())
  }

  /** The plan at a price found. */
  function PlanAt(book: seq<Commitment>, price: nat, day: Day): Result<Plan, CrossRefusal>
  {
    if price == 0 then
      (if exists c :: c in book && c.buy && InAt(c, 0, day) then Err(PriceZero) else Err(NothingMatches(0)))
    else
      var target, available := Target(book, price, day), Available(book, price, day);
      if target == 0 then Err(NothingMatches(price)) else
      if available < target then Err(SellersShort(available, target)) else
      var placing := Place(SplitOf(book, price, day, target, available));
      if placing.left != 0 then Err(CouldNotPlace(placing.left)) else
      var es := Executions(book, price, day, placing.xs);
      match CheckCross(book, day, price, es)
      case Some(problem) => Err(CheckFailed(problem))
      case None => Ok(Plan(price, Match(book, price, day).matched, es))
  }

  function PlanCross(book: seq<Commitment>, day: Day, collarBps: nat, preferred: nat): Result<Plan, CrossRefusal>
  {
    var start, high := Start(day.ref, collarBps, preferred), CollarHigh(day.ref, collarBps);
    if start > high then Err(AboveCollarHigh)
    else match BalancingPrice(book, start, high, day)
      case None => Err(DemandExceedsSupply)
      case Some(price) => PlanAt(book, price, day)
  }

  /** planCross, with its three loops and the shares raised in place. */
  method PlanLoop(book: seq<Commitment>, day: Day, collarBps: nat,
      preferred: nat) returns (r: Result<Plan, CrossRefusal>)
    ensures r == PlanCross(book, day, collarBps, preferred)
  {
    hide CheckCross, Match, Executions, Target, Available, BalancingPrice, ByRemainder, InAt, CollarLow, CollarHigh;
    var start, high := Start(day.ref, collarBps, preferred), CollarHigh(day.ref, collarBps);
    if start > high {
      return Err(AboveCollarHigh);
    }
    var found := BalancingLoop(book, start, high, day);
    if found.None? {
      return Err(DemandExceedsSupply);
    }
    var price := found.value;
    if price == 0 {
      return if exists c :: c in book && c.buy && InAt(c, 0, day) then Err(PriceZero) else Err(NothingMatches(0));
    }
    var target, available := Target(book, price, day), Available(book, price, day);
    if target == 0 {
      return Err(NothingMatches(price));
    }
    if available < target {
      return Err(SellersShort(available, target));
    }
    var split := SplitOf(book, price, day, target, available);
    hide PlanAt, SplitOf;
    var xs, left := PlaceInPlace(split);
    if left != 0 {
      PlanPlaced(book, price, day, xs, left);
      return Err(CouldNotPlace(left));
    }
    var es := Executions(book, price, day, xs);
    var problem := CheckLoop(book, day, price, es);
    PlanPlaced(book, price, day, xs, left);
    if problem.Some? {
      return Err(CheckFailed(problem.value));
    }
    var m := MatchLoop(book, price, day);
    r := Ok(Plan(price, m.matched, es));
  }

  method PlaceInPlace(split: Split) returns (xs: seq<nat>, left: int)
    requires split.Valid()
    ensures |xs| == |split.sizes| && Place(split) == Placing(xs, left)
  {
    hide Split.Floor, ByRemainder;
    ByRemainderIsOrder(split);
    var floors := split.Floors();
    var x := new nat[|floors|](k requires 0 <= k < |floors| => floors[k]);
    assert x[..] == floors;
    left := PlaceLoop(x, split.sizes, split.target - SolverMath.Total(floors), ByRemainder(split));
    xs := x[..];
  }

  lemma PlanPlaced(book: seq<Commitment>, price: nat, day: Day, xs: seq<nat>, left: int)
    requires 0 < price && 0 < Target(book, price, day) <= Available(book, price, day)
    requires Place(SplitOf(book, price, day, Target(book, price, day), Available(book, price, day))) ==
      Placing(xs, left)
    ensures |xs| == |Filter(book, Seller(price, day))|
    ensures PlanAt(book, price, day) ==
      if left != 0 then Err(CouldNotPlace(left))
      else match CheckCross(book, day, price, Executions(book, price, day, xs))
        case Some(problem) => Err(CheckFailed(problem))
        case None => Ok(Plan(price, Match(book, price, day).matched, Executions(book, price, day, xs)))
  {
    hide CheckCross, Match, Executions, Target, Available, ByRemainder, Place;
  }

  // ----- a plan on a fresh book

  /** Every commitment sits at its own position and nothing is filled yet. */
  predicate Fresh(book: seq<Commitment>)
  {
    forall k :: 0 <= k < |book| ==> book[k].index == k && book[k].filledSell == 0
  }

  lemma FreshEntry(book: seq<Commitment>, c: Commitment)
    requires Fresh(book) && c in book
    ensures c.index < |book| && book[c.index] == c && c.Remaining() == c.sellAmount
  {
  }

  lemma TokenOfFloors(quoteAmount: nat, price: nat)
    requires price > 0
    ensures TokenOf(quoteAmount, price) >= 0
    ensures TokenOf(quoteAmount, price) * price <= quoteAmount * WAD
  {
    FloorDiv(quoteAmount * WAD, price, 0);
  }

  lemma QuoteOfFloors(tokenAmount: nat, price: nat)
    ensures QuoteOf(tokenAmount, price) * WAD <= tokenAmount * price
  {
  }

  /** On a fresh book the buyers' target is the demand of the match, and what the sellers hold is its supply. */
  lemma TargetIsDemand(book: seq<Commitment>, price: nat, day: Day)
    requires Fresh(book) && price > 0
    ensures Target(book, price, day) == Match(book, price, day).demand
    ensures Available(book, price, day) == Match(book, price, day).supply
  {
    forall c | c in book
      ensures c.Remaining() == c.sellAmount && TokenOf(c.Remaining(), price) >= 0
    {
      FreshEntry(book, c);
      TokenOfFloors(c.sellAmount, price);
    }
    hide TokenOf, InAt, SumBy, Filter;
    SumByFilterZero(book, Buyer(price, day), DemandAt(price, day));
    SumByEq(Filter(book, Buyer(price, day)), TokensFor(price), DemandAt(price, day));
    SumByFilterZero(book, Seller(price, day), SupplyAt(price, day));
    SumByEq(Filter(book, Seller(price, day)), RemainingOf(), SupplyAt(price, day));
  }

  lemma SplitAvailable(book: seq<Commitment>, price: nat, day: Day)
    requires price > 0
    ensures SolverMath.Total(SplitOf(book, price, day, Target(book, price, day), Available(book, price, day)).sizes) ==
      Available(book, price, day)
  {
    hide InAt, Filter, Target;
    SizesTotal(Filter(book, Seller(price, day)));
  }

  lemma {:induction false} SizesTotal(sells: seq<Commitment>)
    requires forall c :: c in sells ==> c.Remaining() > 0
    ensures SolverMath.Total(Map(sells, Size())) == SumBy(sells, RemainingOf())
  {
    if sells != [] {
      var init := sells[..|sells| - 1];
      SizesTotal(init);
      assert Map(sells, Size())[..|init|] == Map(init, Size());
    }
  }

  /** What an execution moves, by its commitment's side. */
  function TokenIn(book: seq<Commitment>): Execution -> int
  {
    (e: Execution) => if e.intentIndex < |book| && !book[e.intentIndex].buy then e.executedSell else 0
  }

  function TokenOut(book: seq<Commitment>): Execution -> int
  {
    (e: Execution) => if e.intentIndex < |book| && book[e.intentIndex].buy then e.executedBuy else 0
  }

  function QuoteIn(book: seq<Commitment>): Execution -> int
  {
    (e: Execution) => if e.intentIndex < |book| && book[e.intentIndex].buy then e.executedSell else 0
  }

  function QuoteOut(book: seq<Commitment>): Execution -> int
  {
    (e: Execution) => if e.intentIndex < |book| && !book[e.intentIndex].buy then e.executedBuy else 0
  }

  /** Everything checkCross asks of one execution apart from the order. */
  predicate Fine(book: seq<Commitment>, day: Day, price: nat, e: Execution)
    requires price > 0
  {
    && e.intentIndex < |book|
    && var c := book[e.intentIndex];
    && InAt(c, price, day)
    && e.executedSell <= c.Remaining()
    && e.executedBuy == (if c.buy then TokenOf(e.executedSell, price) else QuoteOf(e.executedSell, price))
  }

  predicate Ascending(es: seq<Execution>)
  {
    forall j, k :: 0 <= j < k < |es| ==> es[j].intentIndex < es[k].intentIndex
  }

  lemma {:induction false} FineRuns(book: seq<Commitment>, day: Day, price: nat, es: seq<Execution>, n: nat)
    requires price > 0 && n <= |es|
    requires Ascending(es) && forall e :: e in es ==> Fine(book, day, price, e)
    ensures CheckRun(book, day, price, es, n) ==
      Ok(Flows(SumBy(es[..n], TokenIn(book)), SumBy(es[..n], TokenOut(book)), SumBy(es[..n], QuoteIn(book)),
        SumBy(es[..n], QuoteOut(book))))
  {
    hide InAt, TokenOf, QuoteOf, CheckOne, Ascending;
    if n > 0 {
      FineRuns(book, day, price, es, n - 1);
      hide Fine, SumBy;
      SumByStep(es, n - 1, TokenIn(book));
      SumByStep(es, n - 1, TokenOut(book));
      SumByStep(es, n - 1, QuoteIn(book));
      SumByStep(es, n - 1, QuoteOut(book));
      FineOne(book, day, price, es, n - 1, CheckRun(book, day, price, es, n - 1).value);
    }
  }

  lemma FineOne(book: seq<Commitment>, day: Day, price: nat, es: seq<Execution>, k: nat, f: Flows)
    requires price > 0 && k < |es|
    requires Ascending(es) && Fine(book, day, price, es[k])
    ensures CheckOne(book, day, price, es, k, f) == Ok(Flows(
      f.tokenIn + TokenIn(book)(es[k]), f.tokenOut + TokenOut(book)(es[k]),
      f.quoteIn + QuoteIn(book)(es[k]), f.quoteOut + QuoteOut(book)(es[k])))
  {
  }

  // ----- the executions of a plan

  /** Each selling execution gives one seller's share. */
  lemma {:induction false} SellExecutionFrom(sells: seq<Commitment>, xs: seq<nat>, price: nat,
      e: Execution) returns (n: nat)
    requires |xs| == |sells|
    requires e in SellExecutions(sells, xs, price)
    ensures n < |sells| && xs[n] > 0 && e == Execution(sells[n].index, xs[n], QuoteOf(xs[n], price))
  {
    n := |sells| - 1;
    if e in SellExecutions(sells[..n], xs[..n], price) {
      n := SellExecutionFrom(sells[..n], xs[..n], price, e);
    }
  }

  lemma {:induction false} SellExecutionListed(sells: seq<Commitment>, xs: seq<nat>, price: nat, n: nat)
    requires |xs| == |sells| && n < |sells| && xs[n] > 0
    ensures Execution(sells[n].index, xs[n], QuoteOf(xs[n], price)) in SellExecutions(sells, xs, price)
  {
    if n < |sells| - 1 {
      SellExecutionListed(sells[..|sells| - 1], xs[..|sells| - 1], price, n);
    }
  }

  function ExecSell(): Execution -> int { (e: Execution) => e.executedSell }

  function ExecBuy(): Execution -> int { (e: Execution) => e.executedBuy }

  /** The sellers give the whole total, and get no more than it is worth. */
  lemma {:induction false} SellersGive(sells: seq<Commitment>, xs: seq<nat>, price: nat)
    requires |xs| == |sells|
    ensures SumBy(SellExecutions(sells, xs, price), ExecSell()) == SolverMath.Total(xs)
    ensures SumBy(SellExecutions(sells, xs, price), ExecBuy()) * WAD <= SolverMath.Total(xs) * price
  {
    if sells != [] {
      var n := |sells| - 1;
      SellersGive(sells[..n], xs[..n], price);
      var rest, e := SellExecutions(sells[..n], xs[..n], price),
        Execution(sells[n].index, xs[n], QuoteOf(xs[n], price));
      QuoteOfFloors(xs[n], price);
      hide QuoteOf;
      if xs[n] != 0 {
        assert (rest + [e])[..|rest|] == rest;
      }
      Spread(SolverMath.Total(xs[..n]), xs[n], price);
    }
  }

  /** The buyers pay at least what they take is worth. */
  lemma {:induction false} BuyersPay(buys: seq<Commitment>, price: nat)
    requires price > 0
    requires forall c :: c in buys ==> c.Remaining() >= 0
    ensures SumBy(buys, TokensFor(price)) * price <= SumBy(buys, RemainingOf()) * WAD
  {
    if buys != [] {
      var init, c := buys[..|buys| - 1], buys[|buys| - 1];
      BuyersPay(init, price);
      assert c in buys;
      TokenOfFloors(c.Remaining(), price);
      hide TokenOf;
      Spread(SumBy(init, TokensFor(price)), TokensFor(price)(c), price);
    }
  }

  lemma {:induction false} BuySums(buys: seq<Commitment>, price: nat)
    requires price > 0
    requires forall c :: c in buys ==> c.Remaining() >= 0
    ensures SumBy(Map(buys, BuyExecution(price)), ExecSell()) == SumBy(buys, RemainingOf())
    ensures SumBy(Map(buys, BuyExecution(price)), ExecBuy()) == SumBy(buys, TokensFor(price))
  {
    forall c | c in buys ensures TokenOf(c.Remaining(), price) >= 0 {
      TokenOfFloors(c.Remaining(), price);
    }
    hide TokenOf;
    SumByMap(buys, BuyExecution(price), ExecSell(), RemainingOf());
    SumByMap(buys, BuyExecution(price), ExecBuy(), TokensFor(price));
  }

  /** No commitment is named twice on a side. */
  lemma {:induction false} FilterIndices(book: seq<Commitment>, p: Commitment -> bool)
    requires Fresh(book)
    ensures forall j, k :: 0 <= j < k < |Filter(book, p)| ==> Filter(book, p)[j].index < Filter(book, p)[k].index
  {
    if book != [] {
      var init, c := book[..|book| - 1], book[|book| - 1];
      FilterIndices(init, p);
      forall j | 0 <= j < |Filter(init, p)| ensures Filter(init, p)[j].index < c.index {
        FreshEntry(init, Filter(init, p)[j]);
      }
    }
  }

  lemma {:induction false} SellExecutionsAscend(sells: seq<Commitment>, xs: seq<nat>, price: nat)
    requires |xs| == |sells|
    requires forall j, k :: 0 <= j < k < |sells| ==> sells[j].index < sells[k].index
    ensures Ascending(SellExecutions(sells, xs, price))
  {
    if sells != [] {
      var n := |sells| - 1;
      SellExecutionsAscend(sells[..n], xs[..n], price);
      var rest := SellExecutions(sells[..n], xs[..n], price);
      forall j | 0 <= j < |rest| ensures rest[j].intentIndex < sells[n].index {
        var m := SellExecutionFrom(sells[..n], xs[..n], price, rest[j]);
      }
    }
  }

  /** Sorting two ascending lists with no index in common gives a strictly ascending list. */
  lemma SortAscends(xs: seq<Execution>, ys: seq<Execution>)
    requires Ascending(xs) && Ascending(ys)
    requires forall x, y :: x in xs && y in ys ==> x.intentIndex != y.intentIndex
    ensures Ascending(Sort(xs + ys, ByIntentIndex()))
    ensures multiset(Sort(xs + ys, ByIntentIndex())) == multiset(xs + ys)
    ensures forall e :: e in Sort(xs + ys, ByIntentIndex()) <==> e in xs || e in ys
  {
    var all := xs + ys;
    var es := Sort(all, ByIntentIndex());
    SortPermutes(all, ByIntentIndex());
    SortSorts(all, ByIntentIndex());
    forall j, k | 0 <= j < k < |all| ensures all[j].intentIndex != all[k].intentIndex {
      if j < |xs| <= k {
        assert xs[j] in xs && ys[k - |xs|] in ys;
      }
    }
    DistinctPermutes(all, es);
    forall j, k | 0 <= j < k < |es| ensures es[j].intentIndex < es[k].intentIndex {
      assert ByIntentIndex()(es[j], es[k]);
      assert es[j] in all && es[k] in all && es[j] != es[k];
      var a :| 0 <= a < |all| && all[a] == es[j];
      var b :| 0 <= b < |all| && all[b] == es[k];
    }
  }

  /** Shares of the sellers, none beyond what it holds, adding up to the target. */
  predicate SharesFit(book: seq<Commitment>, price: nat, day: Day, xs: seq<nat>)
    requires price > 0
  {
    var sells := Filter(book, Seller(price, day));
    && |xs| == |sells|
    && (forall k :: 0 <= k < |sells| ==> xs[k] <= sells[k].Remaining())
    && SolverMath.Total(xs) == Target(book, price, day)
  }

  /** A side's executions, with the side they come from. */
  lemma SidesFine(book: seq<Commitment>, price: nat, day: Day, xs: seq<nat>)
    requires Fresh(book) && price > 0 && SharesFit(book, price, day, xs)
    ensures var buys, sells := Map(Filter(book, Buyer(price, day)), BuyExecution(price)),
      SellExecutions(Filter(book, Seller(price, day)), xs, price);
      && (forall e :: e in buys ==> Fine(book, day, price, e) && book[e.intentIndex].buy)
      && (forall e :: e in sells ==> Fine(book, day, price, e) && !book[e.intentIndex].buy)
      && Ascending(buys) && Ascending(sells)
  {
    hide InAt, TokenOf, QuoteOf, Target, Fresh;
    var buyers, sellers := Filter(book, Buyer(price, day)), Filter(book, Seller(price, day));
    forall e | e in Map(buyers, BuyExecution(price)) ensures Fine(book, day, price, e) && book[e.intentIndex].buy {
      var k :| 0 <= k < |buyers| && Map(buyers, BuyExecution(price))[k] == e;
      BuyerFine(book, price, day, buyers[k]);
    }
    forall e | e in SellExecutions(sellers, xs, price) ensures Fine(book, day, price, e) && !book[e.intentIndex].buy {
      var n := SellExecutionFrom(sellers, xs, price, e);
      FreshEntry(book, sellers[n]);
    }
    FilterIndices(book, Buyer(price, day));
    FilterIndices(book, Seller(price, day));
    SellExecutionsAscend(sellers, xs, price);
  }

  lemma BuyerFine(book: seq<Commitment>, price: nat, day: Day, c: Commitment)
    requires Fresh(book) && price > 0 && c in book && Buyer(price, day)(c)
    ensures Fine(book, day, price, BuyExecution(price)(c)) && book[c.index].buy
    ensures BuyExecution(price)(c) == Execution(c.index, c.sellAmount, TokenOf(c.sellAmount, price))
  {
    FreshEntry(book, c);
    hide InAt, TokenOf;
  }

  /** The executions ascend, each is fine, the tokens received are the tokens paid, and the quote received covers the
      quote paid. */
  lemma ExecutionsBalance(book: seq<Commitment>, price: nat, day: Day, xs: seq<nat>)
    requires Fresh(book) && price > 0 && SharesFit(book, price, day, xs)
    ensures var es := Executions(book, price, day, xs);
      && Ascending(es) && (forall e :: e in es ==> Fine(book, day, price, e))
      && SumBy(es, TokenIn(book)) == Target(book, price, day) == SumBy(es, TokenOut(book))
      && SumBy(es, QuoteIn(book)) >= SumBy(es, QuoteOut(book))
  {
    var buyers, sellers := Filter(book, Buyer(price, day)), Filter(book, Seller(price, day));
    var buys, sells := Map(buyers, BuyExecution(price)), SellExecutions(sellers, xs, price);
    SidesFine(book, price, day, xs);
    forall c | c in buyers ensures c.Remaining() >= 0 {
      FreshEntry(book, c);
    }
    hide Fine, InAt, TokenOf, QuoteOf, SumBy, Filter, SellExecutions, Ascending;
    SortAscends(buys, sells);
    SumsOfSides(book, buys, sells, Executions(book, price, day, xs));
    BuySums(buyers, price);
    BuyersPay(buyers, price);
    SellersGive(sellers, xs, price);
    MulCancel(SumBy(sells, ExecBuy()), SumBy(buyers, RemainingOf()), WAD);
  }

  /** Each flow of the merged list comes from one side alone. */
  lemma SumsOfSides(book: seq<Commitment>, buys: seq<Execution>, sells: seq<Execution>, es: seq<Execution>)
    requires multiset(es) == multiset(buys + sells)
    requires forall e :: e in buys ==> e.intentIndex < |book| && book[e.intentIndex].buy
    requires forall e :: e in sells ==> e.intentIndex < |book| && !book[e.intentIndex].buy
    ensures SumBy(es, TokenIn(book)) == SumBy(sells, ExecSell()) && SumBy(es, QuoteOut(book)) == SumBy(sells, ExecBuy())
    ensures SumBy(es, TokenOut(book)) == SumBy(buys, ExecBuy()) && SumBy(es, QuoteIn(book)) == SumBy(buys, ExecSell())
  {
    OneSideOnly(buys, sells, es, TokenIn(book), Zero(), ExecSell());
    OneSideOnly(buys, sells, es, QuoteOut(book), Zero(), ExecBuy());
    OneSideOnly(buys, sells, es, TokenOut(book), ExecBuy(), Zero());
    OneSideOnly(buys, sells, es, QuoteIn(book), ExecSell(), Zero());
    ZeroSum(buys);
    ZeroSum(sells);
  }

  function Zero(): Execution -> int { (_: Execution) => 0 }

  lemma ZeroSum(es: seq<Execution>)
    ensures SumBy(es, Zero()) == 0
  {
    SumByBound(es, Zero(), 0);
    SumByNonNegative(es, Zero());
  }

  lemma OneSideOnly(xs: seq<Execution>, ys: seq<Execution>, all: seq<Execution>, f: Execution -> int,
      g: Execution -> int, h: Execution -> int)
    requires multiset(all) == multiset(xs + ys)
    requires forall e :: e in xs ==> f(e) == g(e)
    requires forall e :: e in ys ==> f(e) == h(e)
    ensures SumBy(all, f) == SumBy(xs, g) + SumBy(ys, h)
  {
    SumByPermutation(all, xs + ys, f);
    SumByAppend(xs, ys, f);
    SumByEq(xs, f, g);
    SumByEq(ys, f, h);
  }

  /** planCross' own check never fires on a fresh book: whatever it planned passes. */
  lemma PlannedPasses(book: seq<Commitment>, price: nat, day: Day, xs: seq<nat>)
    requires Fresh(book) && price > 0 && SharesFit(book, price, day, xs)
    requires 0 < Target(book, price, day) == Match(book, price, day).matched
    ensures CheckCross(book, day, price, Executions(book, price, day, xs)) == None
  {
    ExecutionsBalance(book, price, day, xs);
    var es := Executions(book, price, day, xs);
    hide Executions, Fine, Match, Target, SumBy, Ascending, CheckRun, SharesFit;
    FineRuns(book, day, price, es, |es|);
    assert es[..|es|] == es;
  }

  /** The shares a plan hands out on a balanced fresh book. */
  lemma SharesPlaced(book: seq<Commitment>, price: nat, day: Day)
    requires Fresh(book) && price > 0 && Balanced(book, price, day) && Target(book, price, day) > 0
    ensures Target(book, price, day) <= Available(book, price, day)
    ensures var split := SplitOf(book, price, day, Target(book, price, day), Available(book, price, day));
      && split.Valid() && Place(split).left == 0 && SharesFit(book, price, day, Place(split).xs)
      && forall k :: 0 <= k < |split.sizes| ==>
        IsFairShare(Place(split).xs[k], split.sizes[k], split.target, split.available)
  {
    TargetIsDemand(book, price, day);
    SplitAvailable(book, price, day);
    var split := SplitOf(book, price, day, Target(book, price, day), Available(book, price, day));
    hide Match, Target, Available, InAt, Place, SolverMath.Total, IsFairShare;
    FairPlaced(split);
    hide SplitOf;
    SharesWithin(book, price, day, Place(split).xs);
  }

  lemma SharesWithin(book: seq<Commitment>, price: nat, day: Day, xs: seq<nat>)
    requires price > 0
    requires var split := SplitOf(book, price, day, Target(book, price, day), Available(book, price, day));
      |xs| == |split.sizes| && forall k :: 0 <= k < |split.sizes| ==> xs[k] <= split.sizes[k]
    requires SolverMath.Total(xs) == Target(book, price, day)
    ensures SharesFit(book, price, day, xs)
  {
    hide Target, Available, SolverMath.Total, InAt;
    var sells := Filter(book, Seller(price, day));
    forall k | 0 <= k < |sells| ensures xs[k] <= sells[k].Remaining() {
      assert sells[k] in sells;
    }
  }

  lemma FairPlaced(s: Split)
    requires s.Valid() && SolverMath.Total(s.sizes) == s.available && s.target <= s.available
    ensures Place(s).left == 0 && SolverMath.Total(Place(s).xs) == s.target
    ensures forall k :: 0 <= k < |s.sizes| ==>
      Place(s).xs[k] <= s.sizes[k] && IsFairShare(Place(s).xs[k], s.sizes[k], s.target, s.available)
  {
    hide Place, SolverMath.Total, CeilDiv;
    PlaceExact(s);
  }

  /** The floor or the ceiling of the exact pro rata part. */
  predicate IsFairShare(x: nat, size: nat, target: nat, available: nat)
    requires available > 0
  {
    x == size * target / available || x == CeilDiv(size * target, available)
  }

  /** At a balanced price of at least one, a plan on a fresh book fails only because nothing matches there. */
  lemma PlanAtFresh(book: seq<Commitment>, price: nat, day: Day)
    requires Fresh(book) && price > 0 && Balanced(book, price, day)
    ensures var target, available := Target(book, price, day), Available(book, price, day);
      && target == Match(book, price, day).demand == Match(book, price, day).matched
      && (target == 0 ==> PlanAt(book, price, day) == Err(NothingMatches(price)))
      && (target > 0 ==>
            && target <= available
            && PlanAt(book, price, day) ==
                 Ok(Plan(price, target,
                   Executions(book, price, day, Place(SplitOf(book, price, day, target, available)).xs))))
  {
    TargetIsDemand(book, price, day);
    if Target(book, price, day) > 0 {
      SharesPlaced(book, price, day);
      hide Executions, Match, Target, Available, Place, CheckCross, SharesFit;
      var xs := Place(SplitOf(book, price, day, Target(book, price, day), Available(book, price, day))).xs;
      PlannedPasses(book, price, day, xs);
    }
  }

  /** Everyone taking part at the price gets what it should: buyers in full, sellers the floor or the ceiling of their
      pro rata part, and nobody else is named. */
  ghost predicate FairCross(book: seq<Commitment>, price: nat, day: Day, es: seq<Execution>)
    requires price > 0
  {
    var demand, supply := Match(book, price, day).demand, Match(book, price, day).supply;
    && 0 < demand <= supply
    && Ascending(es)
    && (forall e :: e in es ==> Fine(book, day, price, e))
    && (forall e :: e in es ==>
          var c := book[e.intentIndex];
          if c.buy then e.executedSell == c.sellAmount else IsFairShare(e.executedSell, c.sellAmount, demand, supply))
    && (forall c :: c in book && c.buy && InAt(c, price, day) && TokenOf(c.sellAmount, price) > 0 ==>
          Execution(c.index, c.sellAmount, TokenOf(c.sellAmount, price)) in es)
    && (forall c :: c in book && !c.buy && InAt(c, price, day) && c.sellAmount * demand >= supply ==>
      Names(es, c.index))
    && SumBy(es, TokenIn(book)) == demand == SumBy(es, TokenOut(book))
    && SumBy(es, QuoteIn(book)) >= SumBy(es, QuoteOut(book))
  }

  predicate Names(es: seq<Execution>, index: nat)
  {
    exists e :: e in es && e.intentIndex == index
  }

  lemma PlanIsFair(book: seq<Commitment>, price: nat, day: Day)
    requires Fresh(book) && price > 0 && Balanced(book, price, day) && Target(book, price, day) > 0
    ensures Available(book, price, day) > 0
    ensures FairCross(book, price, day, Executions(book, price, day,
      Place(SplitOf(book, price, day, Target(book, price, day), Available(book, price, day))).xs))
  {
    hide Place, Match, Target, Available, SharesFit, InAt, IsFairShare, SumBy, Executions, Fine, TokenOf, Names, Filter;
    TargetIsDemand(book, price, day);
    SharesPlaced(book, price, day);
    var split := SplitOf(book, price, day, Target(book, price, day), Available(book, price, day));
    var xs := Place(split).xs;
    ExecutionsBalance(book, price, day, xs);
    EachFair(book, price, day, xs, split.target, split.available);
  }

  /** Each side's executions as the fairness statement reads them. */
  lemma EachFair(book: seq<Commitment>, price: nat, day: Day, xs: seq<nat>, target: nat, available: nat)
    requires Fresh(book) && price > 0 && available > 0
    requires |xs| == |Filter(book, Seller(price, day))|
    requires forall k :: 0 <= k < |xs| ==>
      IsFairShare(xs[k], SplitOf(book, price, day, target, available).sizes[k], target, available)
    requires SharesFit(book, price, day, xs)
    ensures var es := Executions(book, price, day, xs);
      && (forall e :: e in es ==>
            && e.intentIndex < |book|
            && var c := book[e.intentIndex];
               if c.buy then e.executedSell ==
                 c.sellAmount else IsFairShare(e.executedSell, c.sellAmount, target, available))
      && (forall c :: c in book && c.buy && InAt(c, price, day) && TokenOf(c.sellAmount, price) > 0 ==>
            Execution(c.index, c.sellAmount, TokenOf(c.sellAmount, price)) in es)
      && (forall c :: c in book && !c.buy && InAt(c, price, day) && c.sellAmount * target >= available ==>
        Names(es, c.index))
  {
    var buyers, sellers := Filter(book, Buyer(price, day)), Filter(book, Seller(price, day));
    var buys, sells := Map(buyers, BuyExecution(price)), SellExecutions(sellers, xs, price);
    var es := Executions(book, price, day, xs);
    SortPermutes(buys + sells, ByIntentIndex());
    assert forall e :: e in es <==> e in buys || e in sells;
    hide Executions, SharesFit, InAt, IsFairShare, TokenOf, QuoteOf, SplitOf;
    forall e | e in es
      ensures e.intentIndex < |book|
      ensures var c := book[e.intentIndex];
        if c.buy then e.executedSell == c.sellAmount else IsFairShare(e.executedSell, c.sellAmount, target, available)
    {
      if e in buys {
        var k :| 0 <= k < |buyers| && buys[k] == e;
        BuyerFine(book, price, day, buyers[k]);
      } else {
        var n := SellExecutionFrom(sellers, xs, price, e);
        SellerShare(book, price, day, target, available, n);
      }
    }
    forall c | c in book && c.buy && InAt(c, price, day) && TokenOf(c.sellAmount, price) > 0
      ensures Execution(c.index, c.sellAmount, TokenOf(c.sellAmount, price)) in es
    {
      FreshEntry(book, c);
      var k :| 0 <= k < |buyers| && buyers[k] == c;
      BuyerFine(book, price, day, c);
      assert buys[k] in buys;
    }
    forall c | c in book && !c.buy && InAt(c, price, day) && c.sellAmount * target >= available
      ensures Names(es, c.index) {
      SellerNamed(book, price, day, xs, target, available, c);
    }
  }

  /** The split's size at a seller's position is what that seller brought. */
  lemma SellerShare(book: seq<Commitment>, price: nat, day: Day, target: nat, available: nat, n: nat)
    requires Fresh(book) && n < |Filter(book, Seller(price, day))|
    ensures var c := Filter(book, Seller(price, day))[n];
      c.index < |book| && book[c.index] == c && !c.buy
        && SplitOf(book, price, day, target, available).sizes[n] == c.sellAmount
  {
    hide InAt;
    FreshEntry(book, Filter(book, Seller(price, day))[n]);
  }

  /** A seller whose pro rata part reaches one unit is named. */
  lemma SellerNamed(book: seq<Commitment>, price: nat, day: Day, xs: seq<nat>, target: nat, available: nat,
      c: Commitment)
    requires Fresh(book) && price > 0 && available > 0
    requires |xs| == |Filter(book, Seller(price, day))|
    requires forall k :: 0 <= k < |xs| ==>
      IsFairShare(xs[k], SplitOf(book, price, day, target, available).sizes[k], target, available)
    requires c in book && !c.buy && InAt(c, price, day) && c.sellAmount * target >= available
    ensures Names(Executions(book, price, day, xs), c.index)
  {
    var buyers, sellers := Filter(book, Buyer(price, day)), Filter(book, Seller(price, day));
    var buys, sells := Map(buyers, BuyExecution(price)), SellExecutions(sellers, xs, price);
    SortPermutes(buys + sells, ByIntentIndex());
    assert forall e :: e in Executions(book, price, day, xs) <==> e in buys || e in sells;
    hide Executions, InAt, TokenOf, QuoteOf, SplitOf, IsFairShare;
    FreshEntry(book, c);
    hide Sort, SellExecutions;
    FactorPositive(c.sellAmount, target);
    assert c in sellers;
    var n :| 0 <= n < |sellers| && sellers[n] == c;
    SellerShare(book, price, day, target, available, n);
    FairIsPositive(xs[n], c.sellAmount, target, available);
    SellExecutionListed(sellers, xs, price, n);
  }

  lemma FactorPositive(size: nat, target: nat)
    ensures size * target > 0 ==> size > 0
  {
  }

  lemma FairIsPositive(x: nat, size: nat, target: nat, available: nat)
    requires available > 0 && IsFairShare(x, size, target, available)
    requires size * target >= available
    ensures x > 0
  {
    FloorDiv(size * target, available, 1);
    CeilingDiv(size * target, available, 0);
  }

  /** The main result on crosses. On a fresh book a plan started at a price of at least one fails only because the start
      is above the collar, demand exceeds supply even at the collar's high, or nothing matches at the balancing price.
      Otherwise its price is the least balanced one in range, it is fair, and the contract's mirror finds no fault. A
      start of zero can also end at price zero, where the division fails or nothing matches. */
  lemma CrossPlanned(book: seq<Commitment>, day: Day, collarBps: nat, preferred: nat)
    requires Fresh(book)
    ensures var start, high, r := Start(day.ref, collarBps, preferred), CollarHigh(day.ref, collarBps),
      PlanCross(book, day, collarBps, preferred);
      match r
      case Ok(plan) =>
        && start <= plan.price <= high && plan.price > 0
        && Balanced(book, plan.price, day)
        && (forall q :: Max(start, 1) <= q < plan.price ==> !Balanced(book, q, day))
        && FairCross(book, plan.price, day, plan.executions)
        && plan.matched == Match(book, plan.price, day).matched
        && CheckCross(book, day, plan.price, plan.executions).None?
      case Err(AboveCollarHigh) => start > high
      case Err(DemandExceedsSupply) => start <= high && !Balanced(book, high, day)
      case Err(PriceZero) => start == 0
      case Err(NothingMatches(price)) =>
        && start <= price <= high && Balanced(book, price, day)
        && (forall q :: Max(start, 1) <= q < price ==> !Balanced(book, q, day))
        && Match(book, price, day).demand == 0
      case Err(_) => false
  {
    var start, high := Start(day.ref, collarBps, preferred), CollarHigh(day.ref, collarBps);
    BalancingIsLeast(book, start, high, day);
    hide Start, CollarHigh, BalancingPrice, Balanced, PlanAt, Match, CheckCross, FairCross;
    if start <= high && Balanced(book, high, day) {
      var price := BalancingPrice(book, start, high, day).value;
      AtFound(book, price, day);
    }
  }

  lemma AtFound(book: seq<Commitment>, price: nat, day: Day)
    requires Fresh(book) && Balanced(book, price, day)
    ensures match PlanAt(book, price, day)
      case Ok(plan) =>
        && price > 0 && plan.price == price
        && FairCross(book, price, day, plan.executions)
        && plan.matched == Match(book, price, day).matched
        && CheckCross(book, day, price, plan.executions).None?
      case Err(PriceZero) => price == 0
      case Err(NothingMatches(p)) => p == price && Match(book, price, day).demand == 0
      case Err(_) => false
  {
    if price > 0 {
      PlanAtFresh(book, price, day);
      if Target(book, price, day) > 0 {
        hide FairCross, Executions, Match, Target, Available, Place, CheckCross;
        PlanIsFair(book, price, day);
      }
    }
  }
}
