/** The clearing price of one pair (solver/src/clearing.ts, first half). */
module Clearing {
  import opened Common
  import opened Solutions
  import SolverMath

  datatype BookEntry = BookEntry(index: nat, intent: Intent)

  datatype Pair = Pair(base: Address, quote: Address, entries: seq<BookEntry>)

  /** Oracle unit prices and the session's band. */
  datatype Reference = Reference(quotePrice: nat, basePrice: nat, maxDeviationBps: nat)

  function BaseUnitPrice(p: int, ref: Reference): int
  {
    TruncDiv(p * ref.quotePrice, WAD)
  }

  /** The unit price of a pair price that is not negative. */
  function UnitPrice(p: nat, ref: Reference): (r: nat)
    ensures r == BaseUnitPrice(p, ref)
  {
    assert p * ref.quotePrice >= 0;
    p * ref.quotePrice / WAD
  }

  predicate InBand(p: int, ref: Reference)
  {
    SolverMath.WithinBand(BaseUnitPrice(p, ref), ref.basePrice, ref.maxDeviationBps)
  }

  function ReferencePairPrice(ref: Reference): nat
    requires ref.quotePrice > 0
  {
    ref.basePrice * WAD / ref.quotePrice
  }

  // ----- the band

  datatype Edges = Edges(lo: int, hi: int)

  function Slack(ref: Reference): nat { ref.basePrice * ref.maxDeviationBps / BPS }

  function LowEdge(ref: Reference): int
    requires ref.quotePrice > 0
  {
    TruncDiv((ref.basePrice - Slack(ref)) * WAD + ref.quotePrice - 1, ref.quotePrice)
  }

  function HighEdge(ref: Reference): int
    requires ref.quotePrice > 0
  {
    ((ref.basePrice + Slack(ref) + 1) * WAD - 1) / ref.quotePrice
  }

  /** The closed forms, refused when they enclose nothing. */
  function BandEdges(ref: Reference): Option<Edges>
    requires ref.quotePrice > 0
  {
    var lo, hi := LowEdge(ref), HighEdge(ref);
    if lo > hi || !InBand(lo, ref) || !InBand(hi, ref) then None else Some(Edges(lo, hi))
  }

  /** The unit price is in band exactly when it is within the floored slack of the oracle price. */
  lemma UnitBand(u: int, ref: Reference)
    ensures SolverMath.WithinBand(u, ref.basePrice, ref.maxDeviationBps) <==>
            ref.basePrice - Slack(ref) <= u <= ref.basePrice + Slack(ref)
  {
    FloorDiv(ref.basePrice * ref.maxDeviationBps, BPS, Abs(u - ref.basePrice));
  }

  lemma LowEdgeExact(p: nat, ref: Reference)
    requires ref.quotePrice > 0
    ensures BaseUnitPrice(p, ref) >= ref.basePrice - Slack(ref) <==> p >= LowEdge(ref)
  {
    var uLo, q := ref.basePrice - Slack(ref), ref.quotePrice;
    assert p * q >= 0;
    FloorDiv(p * q, WAD, uLo);
    if uLo >= 0 {
      CeilingDiv(uLo * WAD, q, p);
    } else {
      FloorDiv(p * q, WAD, 0);
      var x := uLo * WAD + q - 1;
      FloorDiv(x, q, 1);
      if x < 0 { FloorDiv(-x, q, 0); }
    }
  }

  lemma HighEdgeExact(p: nat, ref: Reference)
    requires ref.quotePrice > 0
    ensures BaseUnitPrice(p, ref) <= ref.basePrice + Slack(ref) <==> p <= HighEdge(ref)
    ensures HighEdge(ref) >= 0
  {
    var uHi, q := ref.basePrice + Slack(ref), ref.quotePrice;
    assert p * q >= 0;
    FloorDiv(p * q, WAD, uHi + 1);
    FloorDiv((uHi + 1) * WAD - 1, q, p);
    FloorDiv((uHi + 1) * WAD - 1, q, 0);
  }

  /** A non-negative price is in band exactly between the closed-form edges. */
  lemma EdgesExact(p: nat, ref: Reference)
    requires ref.quotePrice > 0
    ensures InBand(p, ref) <==> LowEdge(ref) <= p <= HighEdge(ref)
  {
    UnitBand(BaseUnitPrice(p, ref), ref);
    LowEdgeExact(p, ref);
    HighEdgeExact(p, ref);
  }

  /** With an allowance above the whole price the low edge is negative, and rounding toward zero keeps it in band. */
  lemma NegativeLowEdge(ref: Reference)
    requires ref.quotePrice > 0
    requires LowEdge(ref) < 0
    ensures InBand(LowEdge(ref), ref)
  {
    var uLo, q, lo := ref.basePrice - Slack(ref), ref.quotePrice, LowEdge(ref);
    var x := -(uLo * WAD + q - 1);
    if x <= 0 { FloorDiv(-x, q, 0); }
    FloorDiv(x, q, -lo);
    var y := (-lo) * q;
    assert lo * q == -y;
    assert y <= (-uLo) * WAD;
    MulMono(0, -lo, q);
    FloorDiv(y, WAD, 0);
    FloorDiv(y, WAD, -uLo + 1);
    UnitBand(BaseUnitPrice(lo, ref), ref);
    NegativeUnit(lo, ref, y);
  }

  lemma NegativeUnit(p: int, ref: Reference, y: int)
    requires p * ref.quotePrice == -y && y >= 0
    ensures BaseUnitPrice(p, ref) == -(y / WAD)
  {
  }

  lemma EdgesInBand(ref: Reference)
    requires ref.quotePrice > 0
    requires LowEdge(ref) <= HighEdge(ref)
    ensures InBand(LowEdge(ref), ref) && InBand(HighEdge(ref), ref)
  {
    HighEdgeExact(0, ref);
    EdgesExact(HighEdge(ref), ref);
    if LowEdge(ref) >= 0 {
      EdgesExact(LowEdge(ref), ref);
    } else {
      NegativeLowEdge(ref);
    }
  }

  /** bandEdges is exact: it refuses a band exactly when no non-negative price lies in it, and otherwise its edges
      enclose the prices in band and no others. */
  lemma BandEdgesExact(ref: Reference)
    requires ref.quotePrice > 0
    ensures BandEdges(ref).None? <==> forall p: nat :: !InBand(p, ref)
    ensures BandEdges(ref).Some? ==>
      forall p: nat :: InBand(p, ref) <==> BandEdges(ref).value.lo <= p <= BandEdges(ref).value.hi
  {
    var lo, hi := LowEdge(ref), HighEdge(ref);
    FloorDiv((ref.basePrice + Slack(ref) + 1) * WAD - 1, ref.quotePrice, 0);
    forall p: nat ensures InBand(p, ref) <==> lo <= p <= hi {
      EdgesExact(p, ref);
    }
    if lo <= hi {
      EdgesInBand(ref);
      assert InBand(hi as nat, ref);
    }
  }

  /** bandEdges as written, with the four correction loops. None of them moves an edge of a band that exists. */
  method FindBandEdges(ref: Reference) returns (r: Option<Edges>)
    requires ref.quotePrice > 0
    ensures r == BandEdges(ref)
  {
    var slack := ref.basePrice * ref.maxDeviationBps / BPS;
    var uLo := ref.basePrice - slack;
    var uHi := ref.basePrice + slack;
    var lo := TruncDiv(uLo * WAD + ref.quotePrice - 1, ref.quotePrice);
    var hi := ((uHi + 1) * WAD - 1) / ref.quotePrice;
    HighEdgeExact(0, ref);
    if lo <= hi { EdgesInBand(ref); }
    var n := 0;
    while n < 4 && lo > 0 && InBand(lo - 1, ref)
      invariant lo + n == LowEdge(ref)
      invariant n > 0 ==> lo >= 0 && InBand(lo, ref)
    {
      lo, n := lo - 1, n + 1;
    }
    if n > 0 { EdgesExact(lo, ref); }
    n := 0;
    while n < 4 && !InBand(lo, ref)
      invariant lo >= LowEdge(ref)
      invariant LowEdge(ref) <= HighEdge(ref) ==> lo == LowEdge(ref)
    {
      lo, n := lo + 1, n + 1;
    }
    n := 0;
    while n < 4 && InBand(hi + 1, ref)
      invariant hi == HighEdge(ref) + n
      invariant n > 0 ==> InBand(hi, ref)
    {
      hi, n := hi + 1, n + 1;
    }
    if n > 0 { EdgesExact(hi, ref); }
    n := 0;
    while n < 4 && !InBand(hi, ref)
      invariant hi <= HighEdge(ref)
      invariant LowEdge(ref) <= HighEdge(ref) ==> hi == HighEdge(ref)
    {
      hi, n := hi - 1, n + 1;
    }
    if lo > hi || !InBand(lo, ref) || !InBand(hi, ref) {
      return None;
    }
    r := Some(Edges(lo, hi));
  }

  // ----- volume

  datatype Leg = Leg(sellsQuote: bool, sellAmount: nat, minBuyAmount: nat) {
    /** The limit comparison, without a division. */
    predicate Accepts(price: nat)
    {
      if sellsQuote then sellAmount * WAD >= minBuyAmount * price else minBuyAmount * WAD <= sellAmount * price
    }

    function Demand(price: nat): nat { if sellsQuote && Accepts(price) then minBuyAmount else 0 }

    function Supply(price: nat): nat { if !sellsQuote && Accepts(price) then sellAmount else 0 }
  }

  function DemandAt(price: nat): Leg -> int { (l: Leg) => l.Demand(price) }

  function SupplyAt(price: nat): Leg -> int { (l: Leg) => l.Supply(price) }

  datatype Volume = Volume(demand: int, supply: int, executable: int)

  function VolumeAt(legs: seq<Leg>, price: nat): Volume
  {
    var demand, supply := SumBy(legs, DemandAt(price)), SumBy(legs, SupplyAt(price));
    Volume(demand, supply, Min(demand, supply))
  }

  /** volumeAt's loop. */
  method EvaluateVolume(legs: seq<Leg>, price: nat) returns (r: Volume)
    ensures r == VolumeAt(legs, price)
  {
    var demand, supply := 0, 0;
    for k := 0 to |legs|
      invariant demand == SumBy(legs[..k], DemandAt(price)) && supply == SumBy(legs[..k], SupplyAt(price))
    {
      SumByStep(legs, k, DemandAt(price));
      SumByStep(legs, k, SupplyAt(price));
      var l := legs[k];
      if l.sellsQuote {
        if l.sellAmount * WAD >= l.minBuyAmount * price { demand := demand + l.minBuyAmount; }
      } else if l.minBuyAmount * WAD <= l.sellAmount * price {
        supply := supply + l.sellAmount;
      }
    }
    assert legs[..|legs|] == legs;
    r := Volume(demand, supply, if demand < supply then demand else supply);
  }

  // ----- the clearing price

  datatype Clearing = Clearing(price: nat, demand: int, supply: int, executable: int, imbalance: nat)

  function Evaluate(legs: seq<Leg>, price: nat): Clearing
  {
    var v := VolumeAt(legs, price);
    Clearing(price, v.demand, v.supply, v.executable, Abs(v.demand - v.supply))
  }

  /** More volume, then less imbalance, then closer to the reference, then lower. */
  predicate Better(a: Clearing, b: Clearing, pRef: nat)
  {
    if a.executable != b.executable then a.executable > b.executable
    else if a.imbalance != b.imbalance then a.imbalance < b.imbalance
    else if Abs(a.price - pRef) != Abs(b.price - pRef) then Abs(a.price - pRef) < Abs(b.price - pRef)
    else a.price < b.price
  }

  function LegOf(quote: Address): BookEntry -> Leg
  {
    (e: BookEntry) => Leg(e.intent.sellToken == quote, e.intent.sellAmount, e.intent.minBuyAmount)
  }

  function LegsOf(pair: Pair): seq<Leg> { Map(pair.entries, LegOf(pair.quote)) }

  /** The last price a buyer takes, or the first a seller takes; None where the leg has no finite limit. */
  function LimitPrice(l: Leg): Option<nat>
  {
    if l.sellsQuote then
      if l.minBuyAmount > 0 then Some(l.sellAmount * WAD / l.minBuyAmount) else None
    else
      if l.sellAmount > 0 then Some(CeilDiv(l.minBuyAmount * WAD, l.sellAmount)) else None
  }

  function Limits(legs: seq<Leg>): seq<int>
  {
    if legs == [] then []
    else
      var l := legs[|legs| - 1];
      Limits(legs[..|legs| - 1]) + (if LimitPrice(l).Some? then [LimitPrice(l).value] else [])
  }

  function Candidates(legs: seq<Leg>, ref: Reference, edges: Edges): seq<int>
    requires ref.quotePrice > 0
  {
    [ReferencePairPrice(ref), edges.lo, edges.hi] + Limits(legs)
  }

  predicate Eligible(p: int, ref: Reference, edges: Edges)
  {
    p > 0 && edges.lo <= p <= edges.hi && InBand(p, ref)
  }

  /** The better of what came before and one more price. */
  function Improve(best: Option<Clearing>, p: int, legs: seq<Leg>, ref: Reference, edges: Edges): Option<Clearing>
    requires ref.quotePrice > 0
  {
    if !Eligible(p, ref, edges) then best
    else
      var c := Evaluate(legs, p);
      if best.None? || Better(c, best.value, ReferencePairPrice(ref)) then Some(c) else best
  }

  function BestOf(prices: seq<int>, legs: seq<Leg>, ref: Reference, edges: Edges): Option<Clearing>
    requires ref.quotePrice > 0
  {
    if prices == [] then None
    else Improve(BestOf(prices[..|prices| - 1], legs, ref, edges), prices[|prices| - 1], legs, ref, edges)
  }

  function Clear(pair: Pair, ref: Reference): Option<Clearing>
    requires ref.quotePrice > 0
  {
    match BandEdges(ref)
    case None => None
    case Some(edges) => BestOf(Candidates(LegsOf(pair), ref, edges), LegsOf(pair), ref, edges)
  }

  /** `c` is the evaluation of an eligible listed price, and beats every other eligible listed price. */
  ghost predicate IsBest(c: Clearing, prices: seq<int>, legs: seq<Leg>, ref: Reference, edges: Edges)
    requires ref.quotePrice > 0
  {
    && c.price in prices && Eligible(c.price, ref, edges) && c == Evaluate(legs, c.price)
    && forall p :: p in prices && Eligible(p, ref, edges) && p != c.price ==>
         Better(c, Evaluate(legs, p), ReferencePairPrice(ref))
  }

  lemma {:induction false} BestOfIsBest(prices: seq<int>, legs: seq<Leg>, ref: Reference, edges: Edges)
    requires ref.quotePrice > 0
    ensures BestOf(prices, legs, ref, edges).None? <==> forall p :: p in prices ==> !Eligible(p, ref, edges)
    ensures BestOf(prices, legs, ref, edges).Some? ==>
      IsBest(BestOf(prices, legs, ref, edges).value, prices, legs, ref, edges)
  {
    if prices == [] {
    } else {
      var init, last := prices[..|prices| - 1], prices[|prices| - 1];
      assert forall p :: p in prices <==> p in init || p == last;
      BestOfIsBest(init, legs, ref, edges);
    }
  }

  /** Which price wins depends only on which prices are listed, not on their order or repetition. */
  lemma BestOfOrder(xs: seq<int>, ys: seq<int>, legs: seq<Leg>, legs': seq<Leg>, ref: Reference, edges: Edges)
    requires ref.quotePrice > 0
    requires forall p :: p in xs <==> p in ys
    requires forall p: nat :: Evaluate(legs, p) == Evaluate(legs', p)
    ensures BestOf(xs, legs, ref, edges) == BestOf(ys, legs', ref, edges)
  {
    BestOfIsBest(xs, legs, ref, edges);
    BestOfIsBest(ys, legs', ref, edges);
    if BestOf(xs, legs, ref, edges).Some? {
      var a, b := BestOf(xs, legs, ref, edges).value, BestOf(ys, legs', ref, edges).value;
      BestUnique(a, b, xs, legs, ref, edges);
    }
  }

  lemma BestUnique(a: Clearing, b: Clearing, prices: seq<int>, legs: seq<Leg>, ref: Reference, edges: Edges)
    requires ref.quotePrice > 0
    requires IsBest(a, prices, legs, ref, edges) && IsBest(b, prices, legs, ref, edges)
    ensures a == b
  {
    BetterIsStrict(a, b, ReferencePairPrice(ref));
  }

  lemma BetterIsStrict(a: Clearing, b: Clearing, pRef: nat)
    ensures !(Better(a, b, pRef) && Better(b, a, pRef))
  {
  }

  /** The prices clear tries, as a set. */
  method CandidateSet(legs: seq<Leg>, ref: Reference, edges: Edges) returns (candidates: set<int>)
    requires ref.quotePrice > 0
    ensures forall p :: p in candidates <==> p in Candidates(legs, ref, edges)
  {
    candidates := {ReferencePairPrice(ref), edges.lo, edges.hi};
    for k := 0 to |legs|
      invariant forall p :: p in candidates <==> p in Candidates(legs[..k], ref, edges)
    {
      assert legs[..k + 1][..k] == legs[..k];
      var l := legs[k];
      if l.sellsQuote {
        if l.minBuyAmount > 0 { candidates := candidates + {l.sellAmount * WAD / l.minBuyAmount}; }
      } else if l.sellAmount > 0 {
        candidates := candidates + {(l.minBuyAmount * WAD + l.sellAmount - 1) / l.sellAmount};
      }
    }
    assert legs[..|legs|] == legs;
  }

  lemma SomeMember(s: set<int>)
    ensures s == {} || exists p :: p in s
  {
    if forall p :: p !in s {
      assert s == {};
    }
  }

  /** clear's loop, over the candidates in any order at all. */
  method SelectBest(candidates: set<int>, legs: seq<Leg>, ref: Reference, edges: Edges, ghost prices: seq<int>)
    returns (best: Option<Clearing>)
    requires ref.quotePrice > 0
    requires forall p :: p in candidates <==> p in prices
    ensures best == BestOf(prices, legs, ref, edges)
  {
    best := None;
    var rest := candidates;
    ghost var visited: seq<int> := [];
    while rest != {}
      invariant forall p :: p in candidates <==> p in rest || p in visited
      invariant best == BestOf(visited, legs, ref, edges)
      decreases rest
    {
      hide BestOf, Improve;
      SomeMember(rest);
      var price: int :| price in rest;
      rest := rest - {price};
      BestOfStep(visited, price, legs, ref, edges);
      visited := visited + [price];
      best := TryPrice(best, price, legs, ref, edges);
    }
    hide BestOf;
    BestOfOrder(visited, prices, legs, legs, ref, edges);
  }

  lemma BestOfStep(visited: seq<int>, price: int, legs: seq<Leg>, ref: Reference, edges: Edges)
    requires ref.quotePrice > 0
    ensures BestOf(visited + [price], legs, ref, edges) ==
      Improve(BestOf(visited, legs, ref, edges), price, legs, ref, edges)
  {
    hide Improve;
    assert (visited + [price])[..|visited|] == visited;
  }

  /** One candidate: passed over when out of band, otherwise evaluated and kept if better. */
  method TryPrice(best: Option<Clearing>, price: int, legs: seq<Leg>, ref: Reference,
      edges: Edges) returns (r: Option<Clearing>)
    requires ref.quotePrice > 0
    ensures r == Improve(best, price, legs, ref, edges)
  {
    r := best;
    if price > 0 && edges.lo <= price <= edges.hi && InBand(price, ref) {
      var v := EvaluateVolume(legs, price);
      var c := Clearing(price, v.demand, v.supply, v.executable, Abs(v.demand - v.supply));
      if best.None? || Better(c, best.value, ReferencePairPrice(ref)) {
        r := Some(c);
      }
    }
  }

  method FindClearing(pair: Pair, ref: Reference) returns (best: Option<Clearing>)
    requires ref.quotePrice > 0
    ensures best == Clear(pair, ref)
  {
    var edges := FindBandEdges(ref);
    if edges.None? {
      return None;
    }
    var candidates := CandidateSet(LegsOf(pair), ref, edges.value);
    best := SelectBest(candidates, LegsOf(pair), ref, edges.value, Candidates(LegsOf(pair), ref, edges.value));
  }

  // ----- clear maximises volume

  /** A buyer that takes p takes every price up to its limit; a seller that takes p takes every price from p. */
  lemma LegSteps(l: Leg, p: nat, c: nat)
    requires p <= c
    requires l.sellsQuote && l.Accepts(p) && LimitPrice(l).Some? ==> c <= LimitPrice(l).value
    ensures l.Demand(p) <= l.Demand(c) && l.Supply(p) <= l.Supply(c)
  {
    if l.sellsQuote {
      if l.minBuyAmount > 0 {
        FloorDiv(l.sellAmount * WAD, l.minBuyAmount, c);
      }
    } else {
      MulMono(p, c, l.sellAmount);
    }
  }

  /** The nearest listed limit at or above p, no higher than the high edge. */
  function NextUp(legs: seq<Leg>, p: nat, hi: nat): (c: nat)
    requires p <= hi
    ensures p <= c <= hi
    ensures c == hi || c in Limits(legs)
    ensures forall x :: x in Limits(legs) && x >= p ==> c <= x
  {
    if legs == [] then hi
    else
      var init, l := legs[..|legs| - 1], legs[|legs| - 1];
      var c := NextUp(init, p, hi);
      if LimitPrice(l).Some? && p <= LimitPrice(l).value < c then LimitPrice(l).value else c
  }

  lemma {:induction false} LimitListed(legs: seq<Leg>, k: nat)
    requires k < |legs|
    ensures LimitPrice(legs[k]).Some? ==> LimitPrice(legs[k]).value in Limits(legs)
  {
    if k < |legs| - 1 {
      LimitListed(legs[..|legs| - 1], k);
    }
  }

  lemma VolumeGrows(legs: seq<Leg>, p: nat, c: nat)
    requires p <= c
    requires forall x :: x in Limits(legs) && x >= p ==> c <= x
    ensures VolumeAt(legs, p).executable <= VolumeAt(legs, c).executable
  {
    forall l | l in legs ensures DemandAt(p)(l) <= DemandAt(c)(l) && SupplyAt(p)(l) <= SupplyAt(c)(l) {
      var k :| 0 <= k < |legs| && legs[k] == l;
      LimitListed(legs, k);
      if l.sellsQuote && l.Accepts(p) && LimitPrice(l).Some? {
        FloorDiv(l.sellAmount * WAD, l.minBuyAmount, p);
      }
      LegSteps(l, p, c);
    }
    SumByLe(legs, DemandAt(p), DemandAt(c));
    SumByLe(legs, SupplyAt(p), SupplyAt(c));
  }

  /** No positive price in the band executes more than the price clear picks. */
  lemma ClearMaximises(pair: Pair, ref: Reference, p: nat)
    requires ref.quotePrice > 0
    requires p > 0 && InBand(p, ref)
    ensures Clear(pair, ref).Some?
    ensures Clear(pair, ref).value.executable >= VolumeAt(LegsOf(pair), p).executable
  {
    BandEdgesExact(ref);
    var edges := BandEdges(ref).value;
    var legs := LegsOf(pair);
    var c := NextUp(legs, p, edges.hi);
    VolumeGrows(legs, p, c);
    var prices := Candidates(legs, ref, edges);
    assert c in prices;
    assert Eligible(c, ref, edges);
    BestOfIsBest(prices, legs, ref, edges);
    assert !Better(Evaluate(legs, c), Clear(pair, ref).value, ReferencePairPrice(ref));
  }

  /** What clear returns is in band, positive, and reports the volume at its own price; it returns nothing only when
      no positive price is in band. */
  lemma ClearSound(pair: Pair, ref: Reference)
    requires ref.quotePrice > 0
    ensures match Clear(pair, ref)
      case Some(c) => c.price > 0 && InBand(c.price, ref) && c == Evaluate(LegsOf(pair), c.price)
      case None => forall p: nat :: p > 0 ==> !InBand(p, ref)
  {
    if BandEdges(ref).Some? {
      BestOfIsBest(Candidates(LegsOf(pair), ref, BandEdges(ref).value), LegsOf(pair), ref, BandEdges(ref).value);
    }
    forall p: nat | p > 0 && InBand(p, ref) ensures Clear(pair, ref).Some? {
      ClearMaximises(pair, ref, p);
    }
  }

  lemma {:induction false} LimitsMembers(legs: seq<Leg>, p: int)
    ensures p in Limits(legs) <==> exists l :: l in legs && LimitPrice(l).Some? && LimitPrice(l).value == p
  {
    if legs != [] {
      var init, last := legs[..|legs| - 1], legs[|legs| - 1];
      LimitsMembers(init, p);
      assert forall l :: l in legs <==> l in init || l == last;
    }
  }

  /** The clearing does not depend on the order the intents arrived in. */
  lemma ClearPermutation(pair: Pair, other: Pair, ref: Reference)
    requires ref.quotePrice > 0
    requires multiset(LegsOf(pair)) == multiset(LegsOf(other))
    ensures Clear(pair, ref) == Clear(other, ref)
  {
    if BandEdges(ref).Some? {
      var legs, legs' := LegsOf(pair), LegsOf(other);
      forall p: nat ensures Evaluate(legs, p) == Evaluate(legs', p) {
        SumByPermutation(legs, legs', DemandAt(p));
        SumByPermutation(legs, legs', SupplyAt(p));
      }
      assert forall l :: l in legs <==> l in multiset(legs);
      assert forall l :: l in legs' <==> l in multiset(legs');
      forall p ensures p in Limits(legs) <==> p in Limits(legs') {
        LimitsMembers(legs, p);
        LimitsMembers(legs', p);
      }
      BestOfOrder(Candidates(legs, ref, BandEdges(ref).value), Candidates(legs', ref, BandEdges(ref).value), legs,
        legs', ref, BandEdges(ref).value);
    }
  }
}
