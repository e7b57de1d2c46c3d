/** A cross told in each commitment's own terms, and what checkCross accepts and refuses (solver/src/cross.ts). */
module CrossTerms {
  import opened Common
  import opened Solutions
  import opened Cross
  import opened CrossPlan

  // ----- who takes part

  /** The price suits the commitment: at market always, a limit order by its own limit unless that is zero, any other
      within its deviation of the reference, the bounds taken at whole prices. */
  predicate Suits(c: Commitment, price: nat, day: Day)
  {
    if c.kind == MOO then true
    else if c.kind == LOO then c.limitPrice == 0 || (if c.buy then price <= c.limitPrice else c.limitPrice <= price)
    else
      && !day.rooExcluded && day.ref > 0
      && (if c.buy then price * BPS <= day.ref * (BPS + c.maxDevFromRefBps)
          else day.ref * (BPS - c.maxDevFromRefBps) < (price + 1) * BPS)
  }

  predicate TakesPart(c: Commitment, price: nat, day: Day)
  {
    c.escrowed && !c.cancelled && Suits(c, price, day)
  }

  /** Taking part is exactly being escrowed, not cancelled and suited. */
  lemma InAtExactly(c: Commitment, price: nat, day: Day)
    ensures InAt(c, price, day) <==> TakesPart(c, price, day)
  {
    if c.kind != MOO && c.kind != LOO && !day.rooExcluded && day.ref > 0 {
      if c.buy {
        FloorDiv(day.ref * (BPS + c.maxDevFromRefBps), BPS, price);
        MulMono(1, day.ref, BPS + c.maxDevFromRefBps);
        FloorDiv(day.ref * (BPS + c.maxDevFromRefBps), BPS, 1);
      } else {
        var bound := day.ref * (BPS - c.maxDevFromRefBps);
        if bound >= 0 {
          FloorDiv(bound, BPS, price + 1);
        } else {
          FloorDiv(-bound, BPS, 0);
        }
      }
    }
  }

  /** A reference-priced commitment takes part at every price its deviation of the reference, either way. */
  lemma NearReferenceTakesPart(c: Commitment, price: nat, day: Day)
    requires c.kind != MOO && c.kind != LOO && c.escrowed && !c.cancelled
    requires !day.rooExcluded && day.ref > 0
    requires Abs(price - day.ref) * BPS <= day.ref * c.maxDevFromRefBps
    ensures InAt(c, price, day)
  {
    InAtExactly(c, price, day);
    Spread(BPS, c.maxDevFromRefBps, day.ref);
    Spread(price, 1, BPS);
    assert day.ref * (BPS - c.maxDevFromRefBps) == day.ref * BPS - day.ref * c.maxDevFromRefBps;
  }

  /** What a buyer that takes part asks for, in whole token units. */
  function Asked(price: nat, day: Day): Commitment -> int
    requires price > 0
  {
    (c: Commitment) => if c.buy && TakesPart(c, price, day) then c.sellAmount * WAD / price else 0
  }

  function Offered(price: nat, day: Day): Commitment -> int
  {
    (c: Commitment) => if !c.buy && TakesPart(c, price, day) then c.sellAmount else 0
  }

  /** match, in the commitments' own terms. */
  lemma MatchIs(book: seq<Commitment>, price: nat, day: Day)
    requires price > 0
    ensures Match(book, price, day).demand == SumBy(book, Asked(price, day))
    ensures Match(book, price, day).supply == SumBy(book, Offered(price, day))
    ensures Match(book, price, day).matched == Min(SumBy(book, Asked(price, day)), SumBy(book, Offered(price, day)))
  {
    forall c | c in book
      ensures DemandAt(price, day)(c) == Asked(price, day)(c) && SupplyAt(price, day)(c) == Offered(price, day)(c)
    {
      InAtExactly(c, price, day);
    }
    hide TakesPart, InAt;
    SumByEq(book, DemandAt(price, day), Asked(price, day));
    SumByEq(book, SupplyAt(price, day), Offered(price, day));
  }

  // ----- what a plan promises

  /** The plan's price lies in the collar around the reference, the edges taken at whole prices, and is no lower than
      the one preferred. */
  predicate InCollar(price: nat, ref: nat, collarBps: nat, preferred: nat)
  {
    && ref * (BPS - collarBps) < (price + 1) * BPS
    && price * BPS <= ref * (BPS + collarBps)
    && preferred <= price
  }

  lemma CollarIs(price: nat, ref: nat, collarBps: nat, preferred: nat)
    ensures Start(ref, collarBps, preferred) <= price <= CollarHigh(ref, collarBps) <==>
      InCollar(price, ref, collarBps, preferred)
  {
    FloorDiv(ref * (BPS + collarBps), BPS, price);
    var bound := ref * (BPS - collarBps);
    if bound >= 0 {
      FloorDiv(bound, BPS, price + 1);
    } else {
      FloorDiv(-bound, BPS, 0);
    }
  }

  /** What a plan promises each commitment. Nobody executes at a price that does not suit it; every buyer that takes
      part and can get a whole token unit executes, all of it, at the floor of what its money buys; sellers give at most
      what they brought, for the floor of its value, and every seller that takes part and whose pro rata part is a whole
      unit is in. */
  ghost predicate Promised(book: seq<Commitment>, day: Day, price: nat, es: seq<Execution>)
    requires price > 0
  {
    var demand, supply := SumBy(book, Asked(price, day)), SumBy(book, Offered(price, day));
    && 0 < demand <= supply
    && (forall e :: e in es ==> Given(book, day, price, e))
    && (forall c :: c in book && c.buy && TakesPart(c, price, day) && price <= c.sellAmount * WAD ==>
          Execution(c.index, c.sellAmount, c.sellAmount * WAD / price) in es)
    && (forall c :: c in book && !c.buy && TakesPart(c, price, day) && supply <= c.sellAmount * demand ==>
          Names(es, c.index))
  }

  /** One execution, as its commitment may expect it. */
  predicate Given(book: seq<Commitment>, day: Day, price: nat, e: Execution)
    requires price > 0
  {
    && e.intentIndex < |book| && TakesPart(book[e.intentIndex], price, day)
    && var c := book[e.intentIndex];
       if c.buy then e.executedSell == c.sellAmount && e.executedBuy == c.sellAmount * WAD / price
       else e.executedSell <= c.sellAmount && e.executedBuy == e.executedSell * price / WAD
  }

  /** A plan on a fresh book keeps its promises, at a price inside the collar at which the sellers offer what the buyers
      ask, and at no lower such price do they. */
  lemma PlanPromises(book: seq<Commitment>, day: Day, collarBps: nat, preferred: nat)
    requires Fresh(book) && PlanCross(book, day, collarBps, preferred).Ok?
    ensures var plan := PlanCross(book, day, collarBps, preferred).value;
      && plan.price > 0 && InCollar(plan.price, day.ref, collarBps, preferred)
      && Promised(book, day, plan.price, plan.executions)
      && plan.matched == SumBy(book, Asked(plan.price, day))
      && (forall q :: 0 < q < plan.price && InCollar(q, day.ref, collarBps, preferred) ==>
            SumBy(book, Offered(q, day)) < SumBy(book, Asked(q, day)))
  {
    hide PlanCross, CheckCross, Start, CollarHigh, Match, InCollar, Promised, FairCross, SumBy, Balanced;
    CrossPlanned(book, day, collarBps, preferred);
    var plan := PlanCross(book, day, collarBps, preferred).value;
    CollarIs(plan.price, day.ref, collarBps, preferred);
    FairKeepsPromises(book, day, plan.price, plan.executions);
    MatchIs(book, plan.price, day);
    forall q | 0 < q < plan.price && InCollar(q, day.ref, collarBps, preferred)
      ensures SumBy(book, Offered(q, day)) < SumBy(book, Asked(q, day))
    {
      CollarIs(q, day.ref, collarBps, preferred);
      BalancedIs(book, q, day);
    }
  }

  lemma BalancedIs(book: seq<Commitment>, price: nat, day: Day)
    requires price > 0
    ensures Balanced(book, price, day) <==> SumBy(book, Asked(price, day)) <= SumBy(book, Offered(price, day))
  {
    MatchIs(book, price, day);
    hide Match, SumBy;
  }

  /** The least price in the collar at which the sellers offer what the buyers ask. */
  ghost predicate LeastCovered(book: seq<Commitment>, day: Day, collarBps: nat, preferred: nat, price: nat)
  {
    && price > 0 && InCollar(price, day.ref, collarBps, preferred)
    && SumBy(book, Asked(price, day)) <= SumBy(book, Offered(price, day))
    && (forall q :: 0 < q < price && InCollar(q, day.ref, collarBps, preferred) ==>
          SumBy(book, Offered(q, day)) < SumBy(book, Asked(q, day)))
  }

  /** From zero up the bisection answers zero exactly where one is balanced, or is past the top. */
  lemma {:induction false} ZeroFound(book: seq<Commitment>, hi: nat, day: Day)
    requires Balanced(book, hi, day)
    ensures Bisect(book, 0, hi, day) == 0 <==> hi == 0 || Balanced(book, 1, day)
    ensures Bisect(book, 0, hi, day) != 1
  {
    assert Balanced(book, 0, day);
    hide Balanced;
    BisectEdge(book, 0, hi, day);
    if Bisect(book, 0, hi, day) >= 2 && Balanced(book, 1, day) {
      MatchMonotone(book, 1, Bisect(book, 0, hi, day) - 1, day);
    }
    if hi >= 2 && Bisect(book, 0, hi, day) == 0 {
      if Balanced(book, hi / 2, day) { ZeroFound(book, hi / 2, day); } else { BisectEdge(book, hi / 2 + 1, hi, day); }
    }
  }

  /** A plan begun at zero is not at one, and ends at zero only where one is balanced or past the top. */
  lemma FromZero(book: seq<Commitment>, day: Day, collarBps: nat, preferred: nat)
    requires Fresh(book) && Start(day.ref, collarBps, preferred) == 0
    ensures var r, high := PlanCross(book, day, collarBps, preferred), CollarHigh(day.ref, collarBps);
      && (r.Ok? ==> r.value.price != 1)
      && (r == Err(PriceZero) || r == Err(NothingMatches(0)) ==> high == 0 || Balanced(book, 1, day))
  {
    hide Start, CollarHigh, Balanced, PlanAt, Bisect;
    var high := CollarHigh(day.ref, collarBps);
    if Balanced(book, high, day) {
      ZeroFound(book, high, day);
      BisectEdge(book, 0, high, day);
      AtFound(book, Bisect(book, 0, high, day), day);
    }
  }

  /** A fresh book is planned if and only if there is such a price and somebody asks for something at it, unless that
      price is one and zero is in the collar too: then the search ends at zero. */
  lemma PlanExactly(book: seq<Commitment>, day: Day, collarBps: nat, preferred: nat)
    requires Fresh(book)
    ensures PlanCross(book, day, collarBps, preferred).Ok? <==>
      exists p :: LeastCovered(book, day, collarBps, preferred, p) && SumBy(book, Asked(p, day)) > 0
        && (p == 1 ==> !InCollar(0, day.ref, collarBps, preferred))
  {
    hide PlanCross, CheckCross, CollarHigh, Match, InCollar, Promised, FairCross, SumBy, Balanced, CollarLow, Start;
    CrossPlanned(book, day, collarBps, preferred);
    CollarIs(0, day.ref, collarBps, preferred);
    if Start(day.ref, collarBps, preferred) == 0 { FromZero(book, day, collarBps, preferred); }
    if PlanCross(book, day, collarBps, preferred).Ok? {
      PlanPromises(book, day, collarBps, preferred);
      var p := PlanCross(book, day, collarBps, preferred).value.price;
      AskedAtPlan(book, day, p, PlanCross(book, day, collarBps, preferred).value.executions);
      assert LeastCovered(book, day, collarBps, preferred, p);
    } else {
      forall p | LeastCovered(book, day, collarBps, preferred, p)
        && (p == 1 ==> !InCollar(0, day.ref, collarBps, preferred)) ensures SumBy(book, Asked(p, day)) <= 0
      {
        NothingAsked(book, day, collarBps, preferred, p);
      }
    }
  }

  /** Where a book with a least covered price is refused, nobody asks for anything at it. */
  lemma NothingAsked(book: seq<Commitment>, day: Day, collarBps: nat, preferred: nat, p: nat)
    requires Fresh(book) && PlanCross(book, day, collarBps, preferred).Err?
    requires LeastCovered(book, day, collarBps, preferred, p)
    requires p == 1 ==> !InCollar(0, day.ref, collarBps, preferred)
    ensures SumBy(book, Asked(p, day)) <= 0
  {
    hide PlanCross, CheckCross, CollarHigh, Match, InCollar, Promised, FairCross, SumBy, Balanced, CollarLow, Start;
    CrossPlanned(book, day, collarBps, preferred);
    CollarIs(p, day.ref, collarBps, preferred);
    CollarIs(0, day.ref, collarBps, preferred);
    CollarIs(1, day.ref, collarBps, preferred);
    BalancedIs(book, p, day);
    BalancedIs(book, 1, day);
    var high := CollarHigh(day.ref, collarBps);
    MatchMonotone(book, p, high, day);
    if Start(day.ref, collarBps, preferred) == 0 { FromZero(book, day, collarBps, preferred); }
    match PlanCross(book, day, collarBps, preferred) {
      case Err(NothingMatches(price)) =>
        if price > 0 {
          CollarIs(price, day.ref, collarBps, preferred);
          BalancedIs(book, price, day);
          MatchIs(book, price, day);
        }
      case _ =>
    }
  }

  lemma AskedAtPlan(book: seq<Commitment>, day: Day, price: nat, es: seq<Execution>)
    requires price > 0 && Promised(book, day, price, es)
    ensures 0 < SumBy(book, Asked(price, day)) <= SumBy(book, Offered(price, day))
  {
  }

  lemma FairKeepsPromises(book: seq<Commitment>, day: Day, price: nat, es: seq<Execution>)
    requires Fresh(book) && price > 0 && FairCross(book, price, day, es)
    ensures Promised(book, day, price, es)
    ensures Match(book, price, day).matched == SumBy(book, Asked(price, day))
  {
    MatchIs(book, price, day);
    hide Match, SumBy, Names, IsFairShare, Ascending, TakesPart, InAt;
    forall e | e in es ensures Given(book, day, price, e) {
      assert Fine(book, day, price, e);
      InAtExactly(book[e.intentIndex], price, day);
    }
    forall c | c in book
      ensures InAt(c, price, day) <==> TakesPart(c, price, day)
      ensures TokenOf(c.sellAmount, price) == c.sellAmount * WAD / price
      ensures TokenOf(c.sellAmount, price) > 0 <==> price <= c.sellAmount * WAD
    {
      InAtExactly(c, price, day);
      FloorDiv(c.sellAmount * WAD, price, 1);
    }
  }

  // ----- what the check accepts and refuses

  /** The money or tokens execution e moves, by the side it is on. */
  function TokensGiven(book: seq<Commitment>): Execution -> int
  {
    (e: Execution) => if e.intentIndex < |book| && !book[e.intentIndex].buy then e.executedSell else 0
  }

  function TokensGot(book: seq<Commitment>): Execution -> int
  {
    (e: Execution) => if e.intentIndex < |book| && book[e.intentIndex].buy then e.executedBuy else 0
  }

  function MoneyGiven(book: seq<Commitment>): Execution -> int
  {
    (e: Execution) => if e.intentIndex < |book| && book[e.intentIndex].buy then e.executedSell else 0
  }

  function MoneyGot(book: seq<Commitment>): Execution -> int
  {
    (e: Execution) => if e.intentIndex < |book| && !book[e.intentIndex].buy then e.executedBuy else 0
  }

  /** Execution k comes after the one before it. */
  predicate After(es: seq<Execution>, k: nat)
    requires k < |es|
  {
    k > 0 ==> es[k - 1].intentIndex < es[k].intentIndex
  }

  /** Execution k names a commitment that is escrowed and not cancelled. */
  predicate Standing(book: seq<Commitment>, es: seq<Execution>, k: nat)
    requires k < |es|
  {
    var n := es[k].intentIndex;
    After(es, k) && n < |book| && book[n].escrowed && !book[n].cancelled
  }

  /** And its price suits it, and it gives no more than is left of it. */
  predicate Fillable(book: seq<Commitment>, day: Day, price: nat, es: seq<Execution>, k: nat)
    requires k < |es|
  {
    && Standing(book, es, k)
    && Suits(book[es[k].intentIndex], price, day)
    && es[k].executedSell <= book[es[k].intentIndex].sellAmount - book[es[k].intentIndex].filledSell
  }

  /** And it gets exactly the floor of what it gives, at the one price. */
  predicate Right(book: seq<Commitment>, day: Day, price: nat, es: seq<Execution>, k: nat)
    requires k < |es|
  {
    && Fillable(book, day, price, es, k)
    && if book[es[k].intentIndex].buy then price > 0 && es[k].executedBuy == es[k].executedSell * WAD / price
       else es[k].executedBuy == es[k].executedSell * price / WAD
  }

  /** The limit an error carries: zero for a commitment that sits the auction out, a limit order's own, and otherwise
      the whole price at the edge of the deviation. */
  predicate BoundIs(c: Commitment, day: Day, limit: int)
  {
    if c.kind == LOO then limit == c.limitPrice
    else if day.rooExcluded || day.ref == 0 then limit == 0
    else
      var edge := day.ref * (if c.buy then BPS + c.maxDevFromRefBps else BPS - c.maxDevFromRefBps);
      limit * BPS <= edge < (limit + 1) * BPS
  }

  /** The error is true of execution k, and names the first thing wrong with it. */
  predicate Wrong(book: seq<Commitment>, day: Day, price: nat, es: seq<Execution>, k: nat, error: CrossError)
    requires k < |es|
  {
    match error
    case ExecutionsNotAscending(at) => at == k && !After(es, k)
    case CommitmentNotEscrowed(at) => at == k && After(es, k) && !Standing(book, es, k)
    case LimitNotRespected(at, limit, p) =>
      && at == k && p == price && Standing(book, es, k)
      && !Suits(book[es[k].intentIndex], price, day) && BoundIs(book[es[k].intentIndex], day, limit)
    case FillExceedsEscrow(at) =>
      && at == k && Standing(book, es, k) && Suits(book[es[k].intentIndex], price, day)
      && !Fillable(book, day, price, es, k)
    case DividesByZero => Fillable(book, day, price, es, k) && book[es[k].intentIndex].buy && price == 0
    case UniformPriceViolated(at, expected, bought) =>
      && at == k && Fillable(book, day, price, es, k) && bought == es[k].executedBuy != expected
      && if book[es[k].intentIndex].buy then price > 0 && expected == es[k].executedSell * WAD / price
         else expected == es[k].executedSell * price / WAD
    case _ => false
  }

  lemma OneVerdict(book: seq<Commitment>, day: Day, price: nat, es: seq<Execution>, k: nat, f: Flows)
    requires k < |es|
    ensures match CheckOne(book, day, price, es, k, f)
      case Ok(g) =>
        && Right(book, day, price, es, k)
        && g.tokenIn == f.tokenIn + TokensGiven(book)(es[k]) && g.tokenOut == f.tokenOut + TokensGot(book)(es[k])
        && g.quoteIn == f.quoteIn + MoneyGiven(book)(es[k]) && g.quoteOut == f.quoteOut + MoneyGot(book)(es[k])
      case Err(error) => Wrong(book, day, price, es, k, error) && !Right(book, day, price, es, k)
  {
    if es[k].intentIndex < |book| {
      var c := book[es[k].intentIndex];
      LimitIs(c, price, day);
      InAtExactly(c, price, day);
      hide Suits, BoundIs, EffectiveLimit;
    }
  }

  /** The limit the check reads is the one its error may carry. */
  lemma LimitIs(c: Commitment, price: nat, day: Day)
    ensures var l := EffectiveLimit(c, day);
      && (!l.participating ==> BoundIs(c, day, 0))
      && (l.participating && l.limit != 0 && (if c.buy then price > l.limit else price < l.limit) ==>
            BoundIs(c, day, l.limit))
  {
    if c.kind != MOO && c.kind != LOO && !day.rooExcluded && day.ref > 0 {
      var edge := day.ref * (if c.buy then BPS + c.maxDevFromRefBps else BPS - c.maxDevFromRefBps);
      if edge >= 0 {
        FloorDiv(edge, BPS, 0);
      } else {
        FloorDiv(-edge, BPS, 0);
      }
    }
  }

  /** The flows of the first n executions. */
  predicate Flowed(book: seq<Commitment>, es: seq<Execution>, n: nat, f: Flows)
    requires n <= |es|
  {
    && f.tokenIn == SumBy(es[..n], TokensGiven(book)) && f.tokenOut == SumBy(es[..n], TokensGot(book))
    && f.quoteIn == SumBy(es[..n], MoneyGiven(book)) && f.quoteOut == SumBy(es[..n], MoneyGot(book))
  }

  /** The error is that of the first execution that is not right. */
  ghost predicate FirstWrong(book: seq<Commitment>, day: Day, price: nat, es: seq<Execution>, error: CrossError)
  {
    exists k :: 0 <= k < |es| && Wrong(book, day, price, es, k, error) && !Right(book, day, price, es, k)
      && forall j :: 0 <= j < k ==> Right(book, day, price, es, j)
  }

  lemma {:induction false} RunVerdict(book: seq<Commitment>, day: Day, price: nat, es: seq<Execution>, n: nat)
    requires n <= |es|
    ensures match CheckRun(book, day, price, es, n)
      case Ok(f) => Flowed(book, es, n, f) && forall k :: 0 <= k < n ==> Right(book, day, price, es, k)
      case Err(error) => FirstWrong(book, day, price, es, error)
  {
    hide CheckOne, Right, Wrong, TokensGiven, TokensGot, MoneyGiven, MoneyGot;
    if n == 0 {
      assert es[..0] == [];
    } else {
      RunVerdict(book, day, price, es, n - 1);
      if CheckRun(book, day, price, es, n - 1).Ok? {
        OneVerdict(book, day, price, es, n - 1, CheckRun(book, day, price, es, n - 1).value);
        SumByStep(es, n - 1, TokensGiven(book));
        SumByStep(es, n - 1, TokensGot(book));
        SumByStep(es, n - 1, MoneyGiven(book));
        SumByStep(es, n - 1, MoneyGot(book));
      }
    }
  }

  /** What can be matched at a price, in the commitments' own terms. */
  function Matchable(book: seq<Commitment>, price: nat, day: Day): int
  {
    if price == 0 then 0 else Min(SumBy(book, Asked(price, day)), SumBy(book, Offered(price, day)))
  }

  ghost predicate AllRight(book: seq<Commitment>, day: Day, price: nat, es: seq<Execution>)
  {
    forall k :: 0 <= k < |es| ==> Right(book, day, price, es, k)
  }

  /** Every execution is right, neither tokens nor money run short, something can be matched, and the tokens that change
      hands reach it but for one unit per execution. */
  ghost predicate Passes(book: seq<Commitment>, day: Day, price: nat, es: seq<Execution>)
  {
    && AllRight(book, day, price, es)
    && SumBy(es, TokensGot(book)) <= SumBy(es, TokensGiven(book))
    && SumBy(es, MoneyGot(book)) <= SumBy(es, MoneyGiven(book))
    && 0 < Matchable(book, price, day) <= SumBy(es, TokensGot(book)) + |es|
  }

  /** The error is true, and names the first thing wrong in the order of the checks. */
  ghost predicate Refused(book: seq<Commitment>, day: Day, price: nat, es: seq<Execution>, error: CrossError)
  {
    match error
    case ValueNotConserved(received, paid) =>
      && AllRight(book, day, price, es) && received < paid
      && var tokens := received == SumBy(es, TokensGiven(book)) && paid == SumBy(es, TokensGot(book));
         tokens || (received == SumBy(es, MoneyGiven(book)) && paid == SumBy(es, MoneyGot(book))
           && SumBy(es, TokensGot(book)) <= SumBy(es, TokensGiven(book)))
    case NothingMatched => AllRight(book, day, price, es) && Matchable(book, price, day) == 0
    case VolumeBelowMatchable(volume, matched) =>
      && AllRight(book, day, price, es) && volume == SumBy(es, TokensGot(book))
      && matched == Matchable(book, price, day) && volume + |es| < matched
    case _ => FirstWrong(book, day, price, es, error)
  }

  /** checkCross is exact: it answers nothing if and only if the cross passes, and otherwise an error that is true of
      it. */
  lemma CheckExactly(book: seq<Commitment>, day: Day, price: nat, es: seq<Execution>)
    ensures CheckCross(book, day, price, es).None? <==> Passes(book, day, price, es)
    ensures CheckCross(book, day, price, es).Some? ==>
      Refused(book, day, price, es, CheckCross(book, day, price, es).value)
  {
    RunVerdict(book, day, price, es, |es|);
    assert es[..|es|] == es;
    if price > 0 {
      MatchIs(book, price, day);
    }
    hide CheckRun, Right, Wrong, SumBy, TokensGiven, TokensGot, MoneyGiven, MoneyGot;
    MatchableNatural(book, price, day);
  }

  lemma MatchableNatural(book: seq<Commitment>, price: nat, day: Day)
    ensures Matchable(book, price, day) >= 0
    ensures Match(book, price, day).matched == Matchable(book, price, day)
  {
    if price > 0 {
      MatchIs(book, price, day);
      hide TakesPart;
      forall c | c in book ensures Asked(price, day)(c) >= 0 {
        FloorDiv(c.sellAmount * WAD, price, 0);
      }
      SumByNonNegative(book, Asked(price, day));
      SumByNonNegative(book, Offered(price, day));
    }
  }
}
