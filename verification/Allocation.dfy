/** Fills at one clearing price, their residual, and its venue call (solver/src/clearing.ts, second half). */
module Allocation {
  import opened Common
  import opened Solutions
  import opened Clearing
  import opened Rationing
  import SolverMath

  datatype Fill = Fill(index: nat, executedSell: nat, executedBuy: nat)

  datatype Reason =
    | BaseFloorsToZero
    | WrongSide
    | BuysNothing
    | Overfilled
    | PartialNotAllowed
    | ReceivesNothing
    | LimitViolated
    | NonUniform

  datatype Exclusion = Exclusion(index: nat, reason: Reason)

  datatype Allocation = Allocation(price: nat, quotePrice: nat, basePrice: nat, fills: seq<Fill>,
    excluded: seq<Exclusion>)

  // ----- who takes part

  /** The base an accepting intent would trade if filled completely. */
  function SizeAt(i: Intent, quote: Address, q: nat, b: nat): nat
    requires b > 0
  {
    if i.sellToken == quote then i.sellAmount * q / b else i.sellAmount
  }

  /** The candidate an entry becomes, or why it is left out. */
  function Screen(e: BookEntry, quote: Address, price: nat, q: nat, b: nat): Result<Candidate, Reason>
    requires b > 0
  {
    var i := e.intent;
    var buys := i.sellToken == quote;
    var lhs := if buys then i.sellAmount * WAD else i.minBuyAmount * WAD;
    var rhs := if buys then i.minBuyAmount * price else i.sellAmount * price;
    if !(if buys then lhs >= rhs else lhs <= rhs) then Err(WrongSide)
    else if SizeAt(i, quote, q, b) == 0 then Err(BuysNothing)
    else Ok(Candidate(e.index, i, buys, SizeAt(i, quote, q, b), i.Partial(), lhs != rhs))
  }

  function Accepted(entries: seq<BookEntry>, quote: Address, price: nat, q: nat, b: nat): seq<Candidate>
    requires b > 0
  {
    if entries == [] then []
    else
      var rest := Accepted(entries[..|entries| - 1], quote, price, q, b);
      match Screen(entries[|entries| - 1], quote, price, q, b)
      case Ok(c) => rest + [c]
      case Err(_) => rest
  }

  function Rejected(entries: seq<BookEntry>, quote: Address, price: nat, q: nat, b: nat): seq<Exclusion>
    requires b > 0
  {
    if entries == [] then []
    else
      var rest := Rejected(entries[..|entries| - 1], quote, price, q, b);
      match Screen(entries[|entries| - 1], quote, price, q, b)
      case Ok(_) => rest
      case Err(r) => rest + [Exclusion(entries[|entries| - 1].index, r)]
  }

  // ----- one pass over the live intents

  function Buys(): Candidate -> bool { (c: Candidate) => c.buys }
  function Sells(): Candidate -> bool { (c: Candidate) => !c.buys }

  /** The short side in full, the long side rationed to it plus what a venue supplies. */
  function Allotments(live: seq<Candidate>, venueBase: nat): Allot
    requires DistinctIndices(live)
  {
    var buyers, sellers := Filter(live, Buys()), Filter(live, Sells());
    FilterDistinct(live, Buys());
    FilterDistinct(live, Sells());
    if SizeTotal(buyers) > SizeTotal(sellers)
    then Full(sellers).allot + Ration(buyers, SizeTotal(sellers) + venueBase)
    else Full(buyers).allot + Ration(sellers, SizeTotal(buyers) + venueBase)
  }

  /** A buyer pays the ceiling of what its base costs; a seller receives the floor. */
  function FillOf(c: Candidate, a: nat, q: nat, b: nat): Fill
    requires q > 0
  {
    if a == 0 then Fill(c.index, 0, 0)
    else if c.buys then Fill(c.index, if a == c.size then c.intent.sellAmount else CeilDiv(a * b, q), a)
    else Fill(c.index, a, a * b / q)
  }

  /** What the verifier would refuse about one fill. */
  function Refusal(i: Intent, f: Fill, buys: bool, q: nat, b: nat): Option<Reason>
  {
    if f.executedSell > i.sellAmount then Some(Overfilled)
    else if f.executedSell != i.sellAmount && !i.Partial() then Some(PartialNotAllowed)
    else if f.executedBuy == 0 then Some(ReceivesNothing)
    else if !SolverMath.LimitRespected(f.executedBuy, i.sellAmount, i.minBuyAmount, f.executedSell)
      then Some(LimitViolated)
    else
      var (sellPrice, buyPrice) := if buys then (q, b) else (b, q);
      if !SolverMath.UniformPriceHolds(f.executedSell, f.executedBuy, sellPrice, buyPrice)
        then Some(NonUniform) else None
  }

  function RefusalOf(c: Candidate, m: Allot, q: nat, b: nat): Option<Reason>
    requires q > 0
  {
    var a := Get(m, c.index);
    if a == 0 then None else Refusal(c.intent, FillOf(c, a, q, b), c.buys, q, b)
  }

  /** The first refused candidate. */
  function FirstBad(live: seq<Candidate>, m: Allot, q: nat, b: nat): (r: Option<Candidate>)
    requires q > 0
    ensures r.None? ==> forall c :: c in live ==> RefusalOf(c, m, q, b).None?
    ensures r.Some? ==> r.value in live && RefusalOf(r.value, m, q, b).Some?
  {
    if live == [] then None
    else
      var init, last := live[..|live| - 1], live[|live| - 1];
      match FirstBad(init, m, q, b)
      case Some(c) => Some(c)
      case None => if RefusalOf(last, m, q, b).Some? then Some(last) else None
  }

  function OtherThan(index: nat): Candidate -> bool { (c: Candidate) => c.index != index }

  function Drop(live: seq<Candidate>, index: nat): seq<Candidate> { Filter(live, OtherThan(index)) }

  lemma {:induction false} FilterShorter(cs: seq<Candidate>, p: Candidate -> bool, c: Candidate)
    requires c in cs && !p(c)
    ensures |Filter(cs, p)| < |cs|
  {
    var init, last := cs[..|cs| - 1], cs[|cs| - 1];
    if p(last) {
      assert c in init;
      FilterShorter(init, p, c);
    }
  }

  /** The live intents and exclusions once no fill is refused. */
  datatype Settled = Settled(live: seq<Candidate>, excluded: seq<Exclusion>)

  /** Takes out one refused intent at a time until none is refused. */
  function SettleFrom(live: seq<Candidate>, excluded: seq<Exclusion>, q: nat, b: nat, venueBase: nat): (r: Settled)
    requires q > 0
    requires DistinctIndices(live)
    ensures DistinctIndices(r.live)
    ensures FirstBad(r.live, Allotments(r.live, venueBase), q, b).None?
    ensures forall c :: c in r.live ==> c in live
    decreases |live|
  {
    var m := Allotments(live, venueBase);
    match FirstBad(live, m, q, b)
    case None => Settled(live, excluded)
    case Some(bad) =>
      FilterShorter(live, OtherThan(bad.index), bad);
      FilterDistinct(live, OtherThan(bad.index));
      SettleFrom(Drop(live, bad.index), excluded + [Exclusion(bad.index, RefusalOf(bad, m, q, b).value)], q, b,
        venueBase)
  }

  function FillFor(m: Allot, q: nat, b: nat): Candidate -> Fill
    requires q > 0
  {
    (c: Candidate) => FillOf(c, Get(m, c.index), q, b)
  }

  function Sold(): Fill -> bool { (f: Fill) => f.executedSell > 0 }

  predicate DistinctEntries(entries: seq<BookEntry>)
  {
    forall j, k :: 0 <= j < k < |entries| ==> entries[j].index != entries[k].index
  }

  lemma {:induction false} AcceptedFacts(entries: seq<BookEntry>, quote: Address, price: nat, q: nat, b: nat)
    requires b > 0
    requires DistinctEntries(entries)
    ensures var live := Accepted(entries, quote, price, q, b);
      && |live| <= |entries|
      && DistinctIndices(live)
      && (forall c :: c in live ==> exists e :: e in entries && Screen(e, quote, price, q, b) == Ok(c))
  {
    if entries != [] {
      var init, last := entries[..|entries| - 1], entries[|entries| - 1];
      AcceptedFacts(init, quote, price, q, b);
      assert forall e :: e in entries <==> e in init || e == last;
      var before := Accepted(init, quote, price, q, b);
      forall k | 0 <= k < |before| ensures before[k].index != last.index {
        var e :| e in init && Screen(e, quote, price, q, b) == Ok(before[k]);
        var j :| 0 <= j < |init| && init[j] == e;
        assert entries[j].index != last.index;
      }
    }
  }

  /** The live intents an allocation ends with. */
  function Final(pair: Pair, price: nat, q: nat, b: nat, venueBase: nat): Settled
    requires q > 0 && b > 0
    requires DistinctEntries(pair.entries)
  {
    AcceptedFacts(pair.entries, pair.quote, price, q, b);
    SettleFrom(Accepted(pair.entries, pair.quote, price, q, b), Rejected(pair.entries, pair.quote, price, q, b), q, b,
      venueBase)
  }

  function ExcludeAll(entries: seq<BookEntry>): seq<Exclusion>
  {
    Map(entries, (e: BookEntry) => Exclusion(e.index, BaseFloorsToZero))
  }

  function Fills(live: seq<Candidate>, m: Allot, q: nat, b: nat): seq<Fill>
    requires q > 0
  {
    Filter(Map(live, FillFor(m, q, b)), Sold())
  }

  function Allocate(pair: Pair, price: nat, ref: Reference, venueBase: nat): Allocation
    requires ref.quotePrice > 0
    requires DistinctEntries(pair.entries)
  {
    var b := UnitPrice(price, ref);
    if b == 0 then Allocation(price, ref.quotePrice, 0, [], ExcludeAll(pair.entries))
    else
      var s := Final(pair, price, ref.quotePrice, b, venueBase);
      Allocation(price, ref.quotePrice, b, Fills(s.live, Allotments(s.live, venueBase), ref.quotePrice, b), s.excluded)
  }

  // ----- what every fill satisfies

  /** What screening put into a candidate. */
  predicate WellMade(c: Candidate, quote: Address, q: nat, b: nat)
    requires b > 0
  {
    && c.buys == (c.intent.sellToken == quote)
    && c.size == SizeAt(c.intent, quote, q, b) > 0
    && c.partial == c.intent.Partial()
  }

  lemma ScreenWellMade(e: BookEntry, quote: Address, price: nat, q: nat, b: nat)
    requires b > 0
    ensures Screen(e, quote, price, q, b).Ok? ==>
      var c := Screen(e, quote, price, q, b).value;
      c.index == e.index && c.intent == e.intent && WellMade(c, quote, q, b)
  {
    hide SizeAt;
  }

  /** Only an intent allotted nothing sells nothing. */
  lemma SoldIffAllotted(c: Candidate, a: nat, quote: Address, q: nat, b: nat)
    requires q > 0 && b > 0
    requires WellMade(c, quote, q, b)
    ensures FillOf(c, a, q, b).executedSell > 0 <==> a > 0
  {
    if a > 0 && c.buys {
      FloorDiv(c.intent.sellAmount * q, b, 1);
      assert c.intent.sellAmount * q > 0;
      assert c.intent.sellAmount != 0;
      MulStrict(0, a, b);
      CeilingDiv(a * b, q, 0);
    }
  }

  /** The value a fill leaves behind is never negative and less than one unit of the dearer side's price. */
  lemma FillRounding(c: Candidate, a: nat, quote: Address, q: nat, b: nat)
    requires q > 0 && b > 0
    requires WellMade(c, quote, q, b)
    ensures var f := FillOf(c, a, q, b);
      var left := if c.buys then f.executedSell * q - f.executedBuy * b else f.executedSell * b - f.executedBuy * q;
      0 <= left < Max(q, b)
  {
    if c.buys {
      FloorDiv(c.intent.sellAmount * q, b, 0);
      CeilingDiv(a * b, q, 0);
    } else {
      FloorDiv(a * b, q, 0);
    }
  }

  // ----- the residual

  /** The intent at an index, as the source's map from index to intent gives it. */
  function IntentAt(entries: seq<BookEntry>, index: nat): Option<Intent>
  {
    if entries == [] then None
    else if entries[|entries| - 1].index == index then Some(entries[|entries| - 1].intent)
    else IntentAt(entries[..|entries| - 1], index)
  }

  lemma {:induction false} IntentAtEntry(entries: seq<BookEntry>, e: BookEntry)
    requires DistinctEntries(entries)
    requires e in entries
    ensures IntentAt(entries, e.index) == Some(e.intent)
  {
    var init, last := entries[..|entries| - 1], entries[|entries| - 1];
    if e != last {
      assert e in init;
      var k :| 0 <= k < |init| && init[k] == e;
      assert entries[k].index != last.index;
      IntentAtEntry(init, e);
    }
  }

  function BaseNet(pair: Pair): Fill -> int
  {
    (f: Fill) => match IntentAt(pair.entries, f.index)
      case None => 0
      case Some(i) => if i.sellToken == pair.quote then -(f.executedBuy as int) else f.executedSell
  }

  function QuoteNet(pair: Pair): Fill -> int
  {
    (f: Fill) => match IntentAt(pair.entries, f.index)
      case None => 0
      case Some(i) => if i.sellToken == pair.quote then f.executedSell else -(f.executedBuy as int)
  }

  /** What the fills leave in the contract, per token. */
  datatype Residual = Residual(base: int, quote: int)

  function ResidualOf(pair: Pair, fills: seq<Fill>): Residual
    requires forall f :: f in fills ==> IntentAt(pair.entries, f.index).Some?
  {
    Residual(SumBy(fills, BaseNet(pair)), SumBy(fills, QuoteNet(pair)))
  }

  /** residual's loop. */
  method SumResidual(pair: Pair, fills: seq<Fill>) returns (r: Residual)
    requires forall f :: f in fills ==> IntentAt(pair.entries, f.index).Some?
    ensures r == ResidualOf(pair, fills)
  {
    var base, quote := 0, 0;
    for k := 0 to |fills|
      invariant base == SumBy(fills[..k], BaseNet(pair)) && quote == SumBy(fills[..k], QuoteNet(pair))
    {
      SumByStep(fills, k, BaseNet(pair));
      SumByStep(fills, k, QuoteNet(pair));
      var f := fills[k];
      assert f in fills;
      var i := IntentAt(pair.entries, f.index).value;
      if i.sellToken == pair.quote {
        quote := quote + f.executedSell;
        base := base - f.executedBuy;
      } else {
        base := base + f.executedSell;
        quote := quote - f.executedBuy;
      }
    }
    assert fills[..|fills|] == fills;
    r := Residual(base, quote);
  }

  /** A fill of this pair that the verifier would take at these prices. */
  predicate Fine(pair: Pair, f: Fill, q: nat, b: nat)
  {
    && f.executedSell > 0
    && exists e ::
      e in pair.entries && e.index == f.index && Refusal(e.intent, f, e.intent.sellToken == pair.quote, q, b).None?
  }

  predicate DistinctFills(fills: seq<Fill>)
  {
    forall j, k :: 0 <= j < k < |fills| ==> fills[j].index != fills[k].index
  }

  /** Every live candidate of the final pass was made from one of the pair's entries. */
  lemma FinalFacts(pair: Pair, price: nat, q: nat, b: nat, venueBase: nat)
    requires q > 0 && b > 0
    requires DistinctEntries(pair.entries)
    ensures var s := Final(pair, price, q, b, venueBase);
      && DistinctIndices(s.live)
      && FirstBad(s.live, Allotments(s.live, venueBase), q, b).None?
      && forall c :: c in s.live ==>
        WellMade(c, pair.quote, q, b) && exists e :: e in pair.entries && e.index == c.index && e.intent == c.intent
  {
    AcceptedFacts(pair.entries, pair.quote, price, q, b);
    var live := Accepted(pair.entries, pair.quote, price, q, b);
    forall c | c in live
      ensures WellMade(c, pair.quote, q, b) && exists e ::
        e in pair.entries && e.index == c.index && e.intent == c.intent
    {
      var e :| e in pair.entries && Screen(e, pair.quote, price, q, b) == Ok(c);
      ScreenWellMade(e, pair.quote, price, q, b);
    }
    hide Accepted, Rejected, Screen;
  }

  lemma {:induction false} FillsDistinct(live: seq<Candidate>, m: Allot, q: nat, b: nat)
    requires q > 0
    requires DistinctIndices(live)
    ensures DistinctFills(Fills(live, m, q, b))
    ensures forall f :: f in Fills(live, m, q, b) ==> exists c :: c in live && c.index == f.index
  {
    if live != [] {
      var init, last := live[..|live| - 1], live[|live| - 1];
      hide FillFor;
      FillsDistinct(init, m, q, b);
      FillForIndex(last, m, q, b);
      assert forall c :: c in live <==> c in init || c == last;
      assert Map(live, FillFor(m, q, b))[..|live| - 1] == Map(init, FillFor(m, q, b));
      var before := Fills(init, m, q, b);
      forall k | 0 <= k < |before| ensures before[k].index != last.index {
        assert before[k] in before;
        var c :| c in init && c.index == before[k].index;
      }
    }
  }

  lemma FillForIndex(c: Candidate, m: Allot, q: nat, b: nat)
    requires q > 0
    ensures FillFor(m, q, b)(c).index == c.index
  {
  }

  /** Every fill an allocation keeps is one the verifier takes, and no intent is filled twice. */
  lemma FillsFine(pair: Pair, price: nat, q: nat, b: nat, venueBase: nat)
    requires q > 0 && b > 0
    requires DistinctEntries(pair.entries)
    ensures var s := Final(pair, price, q, b, venueBase);
      var fills := Fills(s.live, Allotments(s.live, venueBase), q, b);
      DistinctFills(fills) && forall f :: f in fills ==> Fine(pair, f, q, b)
  {
    FinalFacts(pair, price, q, b, venueBase);
    var live := Final(pair, price, q, b, venueBase).live;
    var m := Allotments(live, venueBase);
    hide Final, Allotments;
    FillsDistinct(live, m, q, b);
    forall f | f in Fills(live, m, q, b) ensures Fine(pair, f, q, b) {
      var k :| 0 <= k < |live| && FillFor(m, q, b)(live[k]) == f;
      var c := live[k];
      assert c in live;
      var a := Get(m, c.index);
      SoldIffAllotted(c, a, pair.quote, q, b);
      assert RefusalOf(c, m, q, b).None?;
      var e :| e in pair.entries && e.index == c.index && e.intent == c.intent;
    }
  }

  // ----- sums over an allocation's fills

  /** Base delivered to buyers counts against the contract, base taken from sellers for it. */
  function SignedAllot(m: Allot): Candidate -> int
  {
    (c: Candidate) => if c.buys then -(Get(m, c.index) as int) else Get(m, c.index)
  }

  function ValueOf(pair: Pair, q: nat, b: nat): Fill -> int
  {
    (f: Fill) => q * QuoteNet(pair)(f) + b * BaseNet(pair)(f)
  }

  /** A sum over the kept fills is the sum over the live candidates, since dropped fills move nothing. */
  lemma FillsSum(live: seq<Candidate>, m: Allot, quote: Address, q: nat, b: nat, g: Fill -> int, h: Candidate -> int)
    requires q > 0 && b > 0
    requires forall c :: c in live ==> WellMade(c, quote, q, b)
    requires forall c :: c in live ==> g(FillFor(m, q, b)(c)) == h(c)
    requires forall c :: c in live && Get(m, c.index) == 0 ==> h(c) == 0
    ensures SumBy(Fills(live, m, q, b), g) == SumBy(live, h)
  {
    var all := Map(live, FillFor(m, q, b));
    forall f | f in all && !Sold()(f) ensures g(f) == 0 {
      var k :| 0 <= k < |live| && all[k] == f;
      assert live[k] in live;
      SoldIffAllotted(live[k], Get(m, live[k].index), quote, q, b);
    }
    SumByFilterZero(all, Sold(), g);
    SumByMap(live, FillFor(m, q, b), g, h);
  }

  /** The candidates come from the pair's own entries, so the pair's index map finds their intents. */
  ghost predicate FromPair(live: seq<Candidate>, pair: Pair, q: nat, b: nat)
    requires b > 0
  {
    forall c :: c in live ==> WellMade(c, pair.quote, q, b) && IntentAt(pair.entries, c.index) == Some(c.intent)
  }

  lemma FinalFromPair(pair: Pair, price: nat, q: nat, b: nat, venueBase: nat)
    requires q > 0 && b > 0
    requires DistinctEntries(pair.entries)
    ensures FromPair(Final(pair, price, q, b, venueBase).live, pair, q, b)
  {
    FinalFacts(pair, price, q, b, venueBase);
    var live := Final(pair, price, q, b, venueBase).live;
    hide Final;
    forall c | c in live ensures IntentAt(pair.entries, c.index) == Some(c.intent) {
      var e :| e in pair.entries && e.index == c.index && e.intent == c.intent;
      IntentAtEntry(pair.entries, e);
    }
  }

  /** The base residual of the fills is what sellers gave less what buyers got. */
  lemma BaseResidual(live: seq<Candidate>, pair: Pair, m: Allot, q: nat, b: nat)
    requires q > 0 && b > 0
    requires FromPair(live, pair, q, b)
    ensures SumBy(Fills(live, m, q, b), BaseNet(pair)) ==
      SumBy(Filter(live, Sells()), GetOf(m)) - SumBy(Filter(live, Buys()), GetOf(m))
  {
    FillsSum(live, m, pair.quote, q, b, BaseNet(pair), SignedAllot(m));
    SumBySplit(live, Buys(), Sells(), SignedAllot(m));
    SumByEq(Filter(live, Sells()), SignedAllot(m), GetOf(m));
    SumByLinear(Filter(live, Buys()), GetOf(m), -1, GetOf(m), 0, SignedAllot(m));
  }

  /** Priced at the clearing, the residual is between nothing and one rounding per fill. */
  lemma ResidualValue(live: seq<Candidate>, pair: Pair, m: Allot, q: nat, b: nat)
    requires q > 0 && b > 0
    requires FromPair(live, pair, q, b)
    ensures var fills := Fills(live, m, q, b);
      0 <= q * SumBy(fills, QuoteNet(pair)) + b * SumBy(fills, BaseNet(pair)) <= |fills| * (Max(q, b) - 1)
  {
    var fills := Fills(live, m, q, b);
    forall f | f in fills ensures 0 <= ValueOf(pair, q, b)(f) <= Max(q, b) - 1 {
      var k :| 0 <= k < |live| && FillFor(m, q, b)(live[k]) == f;
      assert live[k] in live;
      FillValue(live[k], pair, Get(m, live[k].index), q, b);
    }
    hide FillFor, Fills, FromPair, FillOf;
    SumByNonNegative(fills, ValueOf(pair, q, b));
    SumByBound(fills, ValueOf(pair, q, b), Max(q, b) - 1);
    SumByLinear(fills, QuoteNet(pair), q, BaseNet(pair), b, ValueOf(pair, q, b));
  }

  lemma FillValue(c: Candidate, pair: Pair, a: nat, q: nat, b: nat)
    requires q > 0 && b > 0
    requires WellMade(c, pair.quote, q, b) && IntentAt(pair.entries, c.index) == Some(c.intent)
    ensures 0 <= ValueOf(pair, q, b)(FillOf(c, a, q, b)) <= Max(q, b) - 1
  {
    FillRounding(c, a, pair.quote, q, b);
    var f := FillOf(c, a, q, b);
    assert f.index == c.index;
    hide FillOf, SizeAt, IntentAt;
    if c.buys {
      assert QuoteNet(pair)(f) == f.executedSell && BaseNet(pair)(f) == -(f.executedBuy as int);
      Difference(q, f.executedSell, b, f.executedBuy);
    } else {
      assert BaseNet(pair)(f) == f.executedSell && QuoteNet(pair)(f) == -(f.executedBuy as int);
      Difference(b, f.executedSell, q, f.executedBuy);
    }
  }

  lemma Difference(p: nat, sell: nat, r: nat, buy: nat)
    ensures p * sell + r * -(buy as int) == sell * p - buy * r
  {
  }

  // ----- the residual of an allocation

  lemma AllocationIndexed(pair: Pair, price: nat, ref: Reference, venueBase: nat)
    requires ref.quotePrice > 0
    requires DistinctEntries(pair.entries)
    ensures forall f :: f in Allocate(pair, price, ref, venueBase).fills ==> IntentAt(pair.entries, f.index).Some?
  {
    var b := UnitPrice(price, ref);
    if b > 0 {
      FillsFine(pair, price, ref.quotePrice, b, venueBase);
      var fills := Allocate(pair, price, ref, venueBase).fills;
      forall f | f in fills ensures IntentAt(pair.entries, f.index).Some? {
        var e :| e in pair.entries && e.index == f.index;
        IntentAtEntry(pair.entries, e);
      }
    }
  }

  /** For every allocation, the residual at the two unit prices is non-negative and less than one unit
      price per fill. */
  lemma AllocationResidual(pair: Pair, price: nat, ref: Reference, venueBase: nat)
    requires ref.quotePrice > 0
    requires DistinctEntries(pair.entries)
    ensures var a := Allocate(pair, price, ref, venueBase);
      && (forall f :: f in a.fills ==> IntentAt(pair.entries, f.index).Some?)
      && var r := ResidualOf(pair, a.fills);
         0 <= a.quotePrice * r.quote + a.basePrice * r.base <= |a.fills| * (Max(a.quotePrice, a.basePrice) - 1)
  {
    hide UnitPrice, Final, Allotments, Fills, FromPair;
    AllocationIndexed(pair, price, ref, venueBase);
    var q, b := ref.quotePrice, UnitPrice(price, ref);
    if b > 0 {
      FinalFacts(pair, price, q, b, venueBase);
      FinalFromPair(pair, price, q, b, venueBase);
      var live := Final(pair, price, q, b, venueBase).live;
      ResidualValue(live, pair, Allotments(live, venueBase), q, b);
    }
  }

  /** When every intent allows partial fills and no venue supplies base, buyers get exactly the base sellers give. */
  lemma AllPartialBalances(pair: Pair, price: nat, ref: Reference)
    requires ref.quotePrice > 0
    requires DistinctEntries(pair.entries)
    requires forall e :: e in pair.entries ==> e.intent.Partial()
    ensures var a := Allocate(pair, price, ref, 0);
      && (forall f :: f in a.fills ==> IntentAt(pair.entries, f.index).Some?)
      && ResidualOf(pair, a.fills).base == 0 && ResidualOf(pair, a.fills).quote >= 0
  {
    hide UnitPrice, Final, Allotments, Fills;
    AllocationResidual(pair, price, ref, 0);
    var q, b := ref.quotePrice, UnitPrice(price, ref);
    if b > 0 {
      FinalFromPair(pair, price, q, b, 0);
      FinalFacts(pair, price, q, b, 0);
      var live := Final(pair, price, q, b, 0).live;
      AllPartialBaseZero(live, pair, q, b);
      var r := ResidualOf(pair, Allocate(pair, price, ref, 0).fills);
      assert r.base == 0;
      MulCancel(0, r.quote, q);
    }
  }

  lemma AllPartialBaseZero(live: seq<Candidate>, pair: Pair, q: nat, b: nat)
    requires q > 0 && b > 0
    requires DistinctIndices(live)
    requires FromPair(live, pair, q, b)
    requires forall e :: e in pair.entries ==> e.intent.Partial()
    requires forall c :: c in live ==> exists e :: e in pair.entries && e.index == c.index && e.intent == c.intent
    ensures SumBy(Fills(live, Allotments(live, 0), q, b), BaseNet(pair)) == 0
  {
    BaseResidual(live, pair, Allotments(live, 0), q, b);
    hide Allotments, Fills;
    PartialSidesMeet(live);
  }

  /** With every intent partial, both sides are allotted the smaller side's total. */
  lemma PartialSidesMeet(live: seq<Candidate>)
    requires DistinctIndices(live)
    requires forall c :: c in live ==> c.partial
    ensures SumBy(Filter(live, Buys()), GetOf(Allotments(live, 0))) ==
      SumBy(Filter(live, Sells()), GetOf(Allotments(live, 0)))
  {
    var buyers, sellers := Filter(live, Buys()), Filter(live, Sells());
    FilterDistinct(live, Buys());
    FilterDistinct(live, Sells());
    assert forall c, d :: c in buyers && d in sellers ==> c.index != d.index by { SidesApart(live); }
    if SizeTotal(buyers) > SizeTotal(sellers) {
      FullAndRationed(sellers, buyers, SizeTotal(sellers));
    } else {
      FullAndRationed(buyers, sellers, SizeTotal(buyers));
    }
  }

  lemma SidesApart(live: seq<Candidate>)
    requires DistinctIndices(live)
    ensures forall c, d :: c in Filter(live, Buys()) && d in Filter(live, Sells()) ==> c.index != d.index
  {
    forall c, d | c in Filter(live, Buys()) && d in Filter(live, Sells()) ensures c.index != d.index {
      SameIndex(live, c, d);
    }
  }

  lemma FullAndRationed(short: seq<Candidate>, long: seq<Candidate>, cap: nat)
    requires DistinctIndices(short) && DistinctIndices(long)
    requires forall c, d :: c in short && d in long ==> c.index != d.index
    requires forall c :: c in long ==> c.partial
    requires cap == SizeTotal(short) <= SizeTotal(long)
    ensures var m := Full(short).allot + Ration(long, cap);
      SumBy(short, GetOf(m)) == cap == SumBy(long, GetOf(m))
  {
    hide Ration;
    FullFacts(short);
    assert Full(short).allot.Keys <= Indices(short) by { FullKeys(short); }
    RationFacts(long, cap);
    RationExact(long, cap);
    MergedGets(short, long, Full(short).allot, Ration(long, cap));
  }

  lemma FullKeys(cs: seq<Candidate>)
    requires DistinctIndices(cs)
    ensures Full(cs).allot.Keys <= Indices(cs)
  {
    FullFacts(cs);
  }

  // ----- the venue call

  datatype VenueNeed = VenueNeed(tokenIn: Address, tokenOut: Address, amountIn: nat, needOut: nat)

  datatype RouteError = BothShort | BelowNeed

  /** What the token in surplus must bring back, for a residual short of exactly one token. */
  function NeedOf(pair: Pair, r: Residual): VenueNeed
    requires (r.base < 0 || r.quote < 0) && !(r.base < 0 && r.quote < 0)
  {
    if r.quote < 0 then VenueNeed(pair.base, pair.quote, r.base, -r.quote)
    else VenueNeed(pair.quote, pair.base, r.quote, -r.base)
  }

  function Route(pair: Pair, fills: seq<Fill>, minOut: VenueNeed -> nat): Result<seq<VenueCall>, RouteError>
    requires forall f :: f in fills ==> IntentAt(pair.entries, f.index).Some?
  {
    var r := ResidualOf(pair, fills);
    if r.base >= 0 && r.quote >= 0 then Ok([])
    else if r.base < 0 && r.quote < 0 then Err(BothShort)
    else
      var need := NeedOf(pair, r);
      var out := minOut(need);
      if out < need.needOut then Err(BelowNeed) else Ok([VenueCall(need.tokenIn, need.tokenOut, need.amountIn, out)])
  }

  /** Both tokens are never short together, so route never throws that error on an allocation. */
  lemma RouteNeverBothShort(pair: Pair, price: nat, ref: Reference, venueBase: nat, minOut: VenueNeed -> nat)
    requires ref.quotePrice > 0
    requires DistinctEntries(pair.entries)
    ensures var fills := Allocate(pair, price, ref, venueBase).fills;
      && (forall f :: f in fills ==> IntentAt(pair.entries, f.index).Some?)
      && Route(pair, fills, minOut) != Err(BothShort)
  {
    hide Allocate;
    AllocationResidual(pair, price, ref, venueBase);
    var a := Allocate(pair, price, ref, venueBase);
    NotBothShort(a.quotePrice, a.basePrice, ResidualOf(pair, a.fills));
    AllocationPrices(pair, price, ref, venueBase);
  }

  lemma AllocationPrices(pair: Pair, price: nat, ref: Reference, venueBase: nat)
    requires ref.quotePrice > 0
    requires DistinctEntries(pair.entries)
    ensures Allocate(pair, price, ref, venueBase).quotePrice == ref.quotePrice
  {
    hide Final, Allotments, Fills, UnitPrice;
  }

  lemma NotBothShort(q: nat, b: nat, r: Residual)
    requires q * r.quote + b * r.base >= 0
    ensures q > 0 ==> !(r.quote < 0 && r.base < 0)
  {
    if q > 0 && r.quote < 0 {
      MulStrict(r.quote, 0, q);
      if r.base < 0 { MulMono(r.base, 0, b); }
    }
  }

  /** When every intent allows partial fills, no venue is called at all. */
  lemma AllPartialNeedsNoVenue(pair: Pair, price: nat, ref: Reference, minOut: VenueNeed -> nat)
    requires ref.quotePrice > 0
    requires DistinctEntries(pair.entries)
    requires forall e :: e in pair.entries ==> e.intent.Partial()
    ensures var fills := Allocate(pair, price, ref, 0).fills;
      && (forall f :: f in fills ==> IntentAt(pair.entries, f.index).Some?)
      && Route(pair, fills, minOut) == Ok([])
  {
    AllPartialBalances(pair, price, ref);
  }

  /** What a routed residual leaves: both tokens covered, the surplus token used up exactly. */
  lemma RouteCovers(pair: Pair, fills: seq<Fill>, minOut: VenueNeed -> nat)
    requires pair.base != pair.quote
    requires forall f :: f in fills ==> IntentAt(pair.entries, f.index).Some?
    requires Route(pair, fills, minOut).Ok?
    ensures var calls, r := Route(pair, fills, minOut).value, ResidualOf(pair, fills);
      match |calls|
      case 0 => r.base >= 0 && r.quote >= 0
      case _ =>
        && |calls| == 1
        && ((calls[0].tokenIn == pair.base && calls[0].tokenOut == pair.quote && r.base == calls[0].amountIn
          && r.quote + calls[0].minOut >= 0)
         || (calls[0].tokenIn == pair.quote && calls[0].tokenOut == pair.base && r.quote == calls[0].amountIn
           && r.base + calls[0].minOut >= 0))
  {
  }

  // ----- the retry loop

  /** allocate as written: at most one pass more than there are entries. It never reaches the throw after the loop. */
  method AllocateLoop(pair: Pair, price: nat, ref: Reference, venueBase: nat) returns (r: Result<Allocation, ()>)
    requires ref.quotePrice > 0
    requires DistinctEntries(pair.entries)
    ensures r == Ok(Allocate(pair, price, ref, venueBase))
  {
    var q, b := ref.quotePrice, UnitPrice(price, ref);
    if b == 0 {
      return Ok(Allocation(price, q, 0, [], ExcludeAll(pair.entries)));
    }
    AcceptedFacts(pair.entries, pair.quote, price, q, b);
    var live, excluded := Accepted(pair.entries, pair.quote, price, q, b),
      Rejected(pair.entries, pair.quote, price, q, b);
    ghost var final := Final(pair, price, q, b, venueBase);
    var pass := 0;
    while pass <= |pair.entries|
      invariant 0 <= pass <= |pair.entries| + 1
      invariant |live| + pass <= |pair.entries|
      invariant DistinctIndices(live)
      invariant final == SettleFrom(live, excluded, q, b, venueBase)
    {
      var m := Allotments(live, venueBase);
      var bad := FirstBad(live, m, q, b);
      if bad.None? {
        return Ok(Allocation(price, q, b, Fills(live, m, q, b), excluded));
      }
      FilterShorter(live, OtherThan(bad.value.index), bad.value);
      FilterDistinct(live, OtherThan(bad.value.index));
      excluded := excluded + [Exclusion(bad.value.index, RefusalOf(bad.value, m, q, b).value)];
      live := Drop(live, bad.value.index);
      pass := pass + 1;
    }
    r := Err(());
  }
}
