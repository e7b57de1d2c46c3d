/** How far clear's hierarchy reaches: volume, then imbalance, then distance to the reference, then the lower price
    (solver/src/clearing.ts:130-180). Volume is maximal over the whole band; the tie-breaks are decided among the prices
    clear tries, and a stretch of prices that holds none of them can do better. */
module TieBreak {
  import opened Common
  import opened Solutions
  import opened Clearing

  /** The prices next to a limit: the first one a buyer refuses, the last one a seller refuses, and the lowest price. */
  function Neighbours(legs: seq<Leg>): seq<int>
  {
    if legs == [] then [1]
    else
      var l := legs[|legs| - 1];
      Neighbours(legs[..|legs| - 1]) + (if LimitPrice(l).Some? then [BesideLimit(l)] else [])
  }

  function BesideLimit(l: Leg): int
    requires LimitPrice(l).Some?
  {
    if l.sellsQuote then LimitPrice(l).value + 1 else LimitPrice(l).value - 1
  }

  /** No positive price in the band ranks above `c`. */
  ghost predicate BestInBand(c: Clearing, legs: seq<Leg>, ref: Reference)
    requires ref.quotePrice > 0
  {
    forall p: nat :: p > 0 && InBand(p, ref) && p != c.price ==> Better(c, Evaluate(legs, p), ReferencePairPrice(ref))
  }

  // ----- stretches of prices that every leg answers alike

  /** No limit of the leg separates the two prices. */
  predicate Together(l: Leg, p: nat, q: nat)
  {
    LimitPrice(l).Some? ==>
      if l.sellsQuote then p <= LimitPrice(l).value <==> q <= LimitPrice(l).value
      else LimitPrice(l).value <= p <==> LimitPrice(l).value <= q
  }

  lemma TogetherSame(l: Leg, p: nat, q: nat)
    requires Together(l, p, q)
    ensures l.Demand(p) == l.Demand(q) && l.Supply(p) == l.Supply(q)
  {
    if l.sellsQuote {
      if l.minBuyAmount > 0 {
        FloorDiv(l.sellAmount * WAD, l.minBuyAmount, p);
        FloorDiv(l.sellAmount * WAD, l.minBuyAmount, q);
      }
    } else if l.sellAmount > 0 {
      CeilingDiv(l.minBuyAmount * WAD, l.sellAmount, p);
      CeilingDiv(l.minBuyAmount * WAD, l.sellAmount, q);
    }
  }

  lemma SameVolume(legs: seq<Leg>, p: nat, q: nat)
    requires forall l :: l in legs ==> Together(l, p, q)
    ensures VolumeAt(legs, p) == VolumeAt(legs, q)
  {
    forall l | l in legs ensures DemandAt(p)(l) == DemandAt(q)(l) && SupplyAt(p)(l) == SupplyAt(q)(l) {
      TogetherSame(l, p, q);
    }
    SumByEq(legs, DemandAt(p), DemandAt(q));
    SumByEq(legs, SupplyAt(p), SupplyAt(q));
  }

  /** The low end of the stretch around `p`: a seller's limit, the price after a buyer's, or `lo`. */
  function Down(legs: seq<Leg>, p: nat, lo: nat): (x: nat)
    requires lo <= p
    ensures lo <= x <= p
    ensures x == lo || x in Limits(legs) || x in Neighbours(legs)
    ensures forall l, y: nat :: l in legs && x <= y <= p ==> ReachesDown(l, p, y)
  {
    if legs == [] then lo
    else
      var init, l := legs[..|legs| - 1], legs[|legs| - 1];
      var x := Down(init, p, lo);
      var start := if LimitPrice(l).None? then lo else if l.sellsQuote then BesideLimit(l) else LimitPrice(l).value;
      if x < start <= p then start else x
  }

  /** Going down from `p` to `y` passes neither the price after a buyer's limit nor a seller's limit. */
  predicate ReachesDown(l: Leg, p: nat, y: nat)
  {
    LimitPrice(l).Some? ==>
      if l.sellsQuote then LimitPrice(l).value < p ==> LimitPrice(l).value < y
      else LimitPrice(l).value <= p ==> LimitPrice(l).value <= y
  }

  /** The high end of the stretch: a buyer's limit, the price before a seller's, or `hi`. */
  function Up(legs: seq<Leg>, p: nat, hi: nat): (x: nat)
    requires p <= hi
    ensures p <= x <= hi
    ensures x == hi || x in Limits(legs) || x in Neighbours(legs)
    ensures forall l, y: nat :: l in legs && p <= y <= x ==> ReachesUp(l, p, y)
  {
    if legs == [] then hi
    else
      var init, l := legs[..|legs| - 1], legs[|legs| - 1];
      var x := Up(init, p, hi);
      var end := if LimitPrice(l).None? then hi else if l.sellsQuote then LimitPrice(l).value else BesideLimit(l);
      if p <= end < x then end else x
  }

  predicate ReachesUp(l: Leg, p: nat, y: nat)
  {
    LimitPrice(l).Some? ==>
      if l.sellsQuote then p <= LimitPrice(l).value ==> y <= LimitPrice(l).value
      else p < LimitPrice(l).value ==> y < LimitPrice(l).value
  }

  /** Every price between the two ends trades as `p` does. */
  lemma StretchSame(legs: seq<Leg>, p: nat, lo: nat, hi: nat, y: nat)
    requires lo <= p <= hi
    requires Down(legs, p, lo) <= y <= Up(legs, p, hi)
    ensures VolumeAt(legs, y) == VolumeAt(legs, p)
  {
    forall l | l in legs ensures Together(l, y, p) {
      if y <= p {
        assert ReachesDown(l, p, y);
      } else {
        assert ReachesUp(l, p, y);
      }
    }
    SameVolume(legs, y, p);
  }

  lemma BetterIsTransitive(a: Clearing, b: Clearing, c: Clearing, pRef: nat)
    requires Better(a, b, pRef) && Better(b, c, pRef)
    ensures Better(a, c, pRef)
  {
  }

  /** The price of the stretch that ranks first: the reference when it is inside, otherwise the end nearer to it. */
  function Nearest(x: nat, y: nat, pRef: nat): nat { if pRef < x then x else if y < pRef then y else pRef }

  lemma NearestRanks(legs: seq<Leg>, p: nat, q: nat, x: nat, y: nat, pRef: nat)
    requires x <= p <= y && q == Nearest(x, y, pRef)
    requires VolumeAt(legs, q) == VolumeAt(legs, p)
    ensures q == p || Better(Evaluate(legs, q), Evaluate(legs, p), pRef)
  {
  }

  /** Some tried price, or a neighbour of one, ranks no lower than `p`. */
  lemma StretchHasFirst(legs: seq<Leg>, ref: Reference, edges: Edges, p: nat) returns (q: nat)
    requires ref.quotePrice > 0 && BandEdges(ref) == Some(edges)
    requires p > 0 && InBand(p, ref)
    ensures q in Candidates(legs, ref, edges) + Neighbours(legs) && Eligible(q, ref, edges)
    ensures q == p || Better(Evaluate(legs, q), Evaluate(legs, p), ReferencePairPrice(ref))
  {
    hide InBand, Better, ReferencePairPrice, Limits, BandEdges;
    BandEdgesExact(ref);
    var lo := if edges.lo > 1 then edges.lo else 1;
    var x, y := Down(legs, p, lo), Up(legs, p, edges.hi);
    LowestListed(legs);
    q := Nearest(x, y, ReferencePairPrice(ref));
    StretchSame(legs, p, lo, edges.hi, q);
    NearestRanks(legs, p, q, x, y, ReferencePairPrice(ref));
  }

  lemma {:induction false} LowestListed(legs: seq<Leg>)
    ensures 1 in Neighbours(legs)
  {
    if legs != [] {
      LowestListed(legs[..|legs| - 1]);
    }
  }

  /** clear's price ranks above every other price it tries. */
  lemma ClearIsBestTried(pair: Pair, ref: Reference, p: nat)
    requires ref.quotePrice > 0
    requires Clear(pair, ref).Some?
    requires p > 0 && InBand(p, ref) && p != Clear(pair, ref).value.price
    requires BandEdges(ref).Some? && p in Candidates(LegsOf(pair), ref, BandEdges(ref).value)
    ensures Better(Clear(pair, ref).value, Evaluate(LegsOf(pair), p), ReferencePairPrice(ref))
  {
    hide InBand, Better, Candidates, BandEdges;
    var edges, legs := BandEdges(ref).value, LegsOf(pair);
    BandEdgesExact(ref);
    BestOfIsBest(Candidates(legs, ref, edges), legs, ref, edges);
  }

  /** The tried prices and the neighbours of the limits together always hold the price that ranks first in the band. */
  lemma WidenedIsBest(legs: seq<Leg>, ref: Reference, edges: Edges, p: nat)
    requires ref.quotePrice > 0 && BandEdges(ref) == Some(edges)
    requires p > 0 && InBand(p, ref)
    ensures var best := BestOf(Candidates(legs, ref, edges) + Neighbours(legs), legs, ref, edges);
      best.Some? && best.value == Evaluate(legs, best.value.price) && BestInBand(best.value, legs, ref)
      && best.value.price > 0 && InBand(best.value.price, ref)
  {
    var prices, pRef := Candidates(legs, ref, edges) + Neighbours(legs), ReferencePairPrice(ref);
    var first := StretchHasFirst(legs, ref, edges, p);
    BestOfIsBest(prices, legs, ref, edges);
    hide InBand, Better, Candidates, BandEdges, ReferencePairPrice, Neighbours, Evaluate, BestOf;
    var best := BestOf(prices, legs, ref, edges).value;
    forall p': nat | p' > 0 && InBand(p', ref) && p' != best.price ensures Better(best, Evaluate(legs, p'), pRef) {
      var q := StretchHasFirst(legs, ref, edges, p');
      if q != p' && q != best.price {
        BetterIsTransitive(best, Evaluate(legs, q), Evaluate(legs, p'), pRef);
      }
    }
  }

  /** Some price clear tries is `n`, or ranks above it. */
  ghost predicate Answered(n: nat, legs: seq<Leg>, ref: Reference, edges: Edges)
    requires ref.quotePrice > 0
  {
    exists q: nat :: q in Candidates(legs, ref, edges) && Eligible(q, ref, edges) && RanksNoLower(q, n, legs, ref)
  }

  predicate RanksNoLower(q: nat, n: nat, legs: seq<Leg>, ref: Reference)
    requires ref.quotePrice > 0
  {
    q == n || Better(Evaluate(legs, q), Evaluate(legs, n), ReferencePairPrice(ref))
  }

  /** clear's price ranks first among all positive prices in the band exactly when every price next to a limit, and the
      price 1, has a tried price that ranks no lower. */
  lemma ClearIsBestExactly(pair: Pair, ref: Reference)
    requires ref.quotePrice > 0
    requires Clear(pair, ref).Some?
    ensures BandEdges(ref).Some?
    ensures var legs, edges := LegsOf(pair), BandEdges(ref).value;
      BestInBand(Clear(pair, ref).value, legs, ref) <==>
        forall n: nat :: n in Neighbours(legs) && Eligible(n, ref, edges) ==> Answered(n, legs, ref, edges)
  {
    ClearSound(pair, ref);
    ClearIsTried(pair, ref);
    BandEdgesExact(ref);
    var c, legs, edges := Clear(pair, ref).value, LegsOf(pair), BandEdges(ref).value;
    hide InBand, Better, Candidates, BandEdges, Clear, LegsOf, ReferencePairPrice, Neighbours, Evaluate, BestOf;
    if BestInBand(c, legs, ref) {
      forall n: nat | n in Neighbours(legs) && Eligible(n, ref, edges) ensures Answered(n, legs, ref, edges) {
        assert RanksNoLower(c.price, n, legs, ref);
      }
    }
    if forall n: nat :: n in Neighbours(legs) && Eligible(n, ref, edges) ==> Answered(n, legs, ref, edges) {
      forall p: nat | p > 0 && InBand(p, ref) && p != c.price
        ensures Better(c, Evaluate(legs, p), ReferencePairPrice(ref)) {
        AnsweredIsBelow(pair, ref, p);
      }
    }
  }

  /** Where every neighbour is answered, clear's price ranks above any other. */
  lemma AnsweredIsBelow(pair: Pair, ref: Reference, p: nat)
    requires ref.quotePrice > 0
    requires Clear(pair, ref).Some? && BandEdges(ref).Some?
    requires p > 0 && InBand(p, ref) && p != Clear(pair, ref).value.price
    requires forall n: nat :: n in Neighbours(LegsOf(pair)) && Eligible(n, ref, BandEdges(ref).value) ==>
      Answered(n, LegsOf(pair), ref, BandEdges(ref).value)
    ensures Better(Clear(pair, ref).value, Evaluate(LegsOf(pair), p), ReferencePairPrice(ref))
  {
    ClearIsTried(pair, ref);
    var c, legs, edges := Clear(pair, ref).value, LegsOf(pair), BandEdges(ref).value;
    hide InBand, Better, Candidates, BandEdges, Clear, LegsOf, ReferencePairPrice, Neighbours, Evaluate, BestOf;
    var x := StretchHasFirst(legs, ref, edges, p);
    var q := x;
    if x !in Candidates(legs, ref, edges) {
      assert Answered(x, legs, ref, edges);
      q :| q in Candidates(legs, ref, edges) && Eligible(q, ref, edges) && RanksNoLower(q, x, legs, ref);
    }
    if q != c.price { ClearIsBestTried(pair, ref, q); }
    RanksOn(c.price, q, x, legs, ref);
    RanksOn(c.price, x, p, legs, ref);
  }

  lemma RanksOn(a: nat, b: nat, c: nat, legs: seq<Leg>, ref: Reference)
    requires ref.quotePrice > 0
    requires RanksNoLower(a, b, legs, ref) && RanksNoLower(b, c, legs, ref)
    ensures RanksNoLower(a, c, legs, ref)
  {
  }

  // ----- which imbalance is missed

  lemma DemandFalls(legs: seq<Leg>, p: nat, q: nat)
    requires p <= q
    ensures VolumeAt(legs, q).demand <= VolumeAt(legs, p).demand
    ensures VolumeAt(legs, p).supply <= VolumeAt(legs, q).supply
  {
    forall l | l in legs ensures DemandAt(q)(l) <= DemandAt(p)(l) && SupplyAt(p)(l) <= SupplyAt(q)(l) {
      if l.sellsQuote { MulMono(p, q, l.minBuyAmount); } else { MulMono(p, q, l.sellAmount); }
    }
    SumByLe(legs, DemandAt(q), DemandAt(p));
    SumByLe(legs, SupplyAt(p), SupplyAt(q));
  }

  /** A price at which demand meets supply exactly executes the most there is to execute, at any other price. */
  lemma BalancedIsMost(legs: seq<Leg>, p: nat, q: nat)
    requires VolumeAt(legs, p).demand == VolumeAt(legs, p).supply
    ensures VolumeAt(legs, q).executable <= VolumeAt(legs, p).executable
  {
    if p <= q { DemandFalls(legs, p, q); } else { DemandFalls(legs, q, p); }
  }

  /** The highest listed limit at or below p, no lower than the low edge. */
  function NextDown(legs: seq<Leg>, p: nat, lo: nat): (c: nat)
    requires lo <= p
    ensures lo <= c <= p
    ensures c == lo || c in Limits(legs)
    ensures forall l :: l in legs && LimitPrice(l).Some? && LimitPrice(l).value <= p ==> LimitPrice(l).value <= c
  {
    if legs == [] then lo
    else
      var init, l := legs[..|legs| - 1], legs[|legs| - 1];
      var c := NextDown(init, p, lo);
      if LimitPrice(l).Some? && c < LimitPrice(l).value <= p then LimitPrice(l).value else c
  }

  /** Down to the next limit the supply does not change; up to the next one, the demand does not. */
  lemma OneSideStays(legs: seq<Leg>, p: nat, c: nat)
    requires c <= p ==> forall l :: l in legs && LimitPrice(l).Some? && LimitPrice(l).value <= p ==>
      LimitPrice(l).value <= c
    requires c >= p ==> forall l :: l in legs && LimitPrice(l).Some? && p <= LimitPrice(l).value ==>
      c <= LimitPrice(l).value
    ensures c <= p ==> VolumeAt(legs, c).supply == VolumeAt(legs, p).supply
    ensures c >= p ==> VolumeAt(legs, c).demand == VolumeAt(legs, p).demand
  {
    forall l | l in legs
      ensures c <= p ==> SupplyAt(c)(l) == SupplyAt(p)(l)
      ensures c >= p ==> DemandAt(c)(l) == DemandAt(p)(l)
    {
      if (c <= p && !l.sellsQuote) || (c >= p && l.sellsQuote) { TogetherSame(l, c, p); }
    }
    if c <= p { SumByEq(legs, SupplyAt(c), SupplyAt(p)); }
    if c >= p { SumByEq(legs, DemandAt(c), DemandAt(p)); }
  }

  /** A price out of balance, executing the most there is to execute, has a tried price that trades exactly
      as it does. */
  lemma UnbalancedIsTried(pair: Pair, ref: Reference, p: nat) returns (q: nat)
    requires ref.quotePrice > 0 && BandEdges(ref).Some? && BandEdges(ref).value.lo > 0
    requires p > 0 && InBand(p, ref) && Clear(pair, ref).Some?
    requires VolumeAt(LegsOf(pair), p).executable == Clear(pair, ref).value.executable
    requires VolumeAt(LegsOf(pair), p).demand != VolumeAt(LegsOf(pair), p).supply
    ensures q > 0 && InBand(q, ref) && q in Candidates(LegsOf(pair), ref, BandEdges(ref).value)
    ensures VolumeAt(LegsOf(pair), q) == VolumeAt(LegsOf(pair), p)
  {
    var legs, edges := LegsOf(pair), BandEdges(ref).value;
    BandEdgesExact(ref);
    hide InBand, BandEdges, Clear, LegsOf;
    if VolumeAt(legs, p).demand < VolumeAt(legs, p).supply {
      q := NextDown(legs, p, edges.lo);
      DemandFalls(legs, q, p);
    } else {
      q := NextUp(legs, p, edges.hi);
      DemandFalls(legs, p, q);
      forall l | l in legs && LimitPrice(l).Some? ensures LimitPrice(l).value in Limits(legs) {
        var k :| 0 <= k < |legs| && legs[k] == l;
        LimitListed(legs, k);
      }
    }
    OneSideStays(legs, p, q);
    ClearMaximises(pair, ref, q);
  }

  /** No price in the band executes as much as clear's with less imbalance. */
  ghost predicate LeastImbalance(c: Clearing, legs: seq<Leg>, ref: Reference)
  {
    forall p: nat :: p > 0 && InBand(p, ref) && VolumeAt(legs, p).executable == c.executable ==>
      c.imbalance <= Evaluate(legs, p).imbalance
  }

  predicate Balances(legs: seq<Leg>, p: nat) { VolumeAt(legs, p).demand == VolumeAt(legs, p).supply }

  /** `q` executes more than `n`, or as much with no more imbalance. */
  predicate NoWorse(q: nat, n: nat, legs: seq<Leg>)
  {
    var x, y := Evaluate(legs, q), Evaluate(legs, n);
    x.executable > y.executable || (x.executable == y.executable && x.imbalance <= y.imbalance)
  }

  ghost predicate Matched(n: nat, legs: seq<Leg>, ref: Reference, edges: Edges)
    requires ref.quotePrice > 0
  {
    exists q: nat :: q in Candidates(legs, ref, edges) && Eligible(q, ref, edges) && NoWorse(q, n, legs)
  }

  /** The second rank, exactly, for every band: clear minimises the imbalance over every price that executes the most if
      and only if every price next to a limit, and the price 1, has a tried price no worse in volume and imbalance. */
  lemma ImbalanceExactly(pair: Pair, ref: Reference)
    requires ref.quotePrice > 0
    requires Clear(pair, ref).Some?
    ensures BandEdges(ref).Some?
    ensures var legs, edges := LegsOf(pair), BandEdges(ref).value;
      LeastImbalance(Clear(pair, ref).value, legs, ref) <==>
        forall n: nat :: n in Neighbours(legs) && Eligible(n, ref, edges) ==> Matched(n, legs, ref, edges)
  {
    ClearSound(pair, ref);
    ClearIsTried(pair, ref);
    BandEdgesExact(ref);
    var c, legs, edges := Clear(pair, ref).value, LegsOf(pair), BandEdges(ref).value;
    forall p: nat | p > 0 && InBand(p, ref)
      ensures Evaluate(legs, p).executable == VolumeAt(legs, p).executable <= c.executable {
      ClearMaximises(pair, ref, p);
    }
    hide InBand, Candidates, BandEdges, Clear, LegsOf, Neighbours, Evaluate, VolumeAt;
    if LeastImbalance(c, legs, ref) {
      forall n: nat | n in Neighbours(legs) && Eligible(n, ref, edges) ensures Matched(n, legs, ref, edges) {
        assert NoWorse(c.price, n, legs);
      }
    }
    if forall n: nat :: n in Neighbours(legs) && Eligible(n, ref, edges) ==> Matched(n, legs, ref, edges) {
      forall p: nat | p > 0 && InBand(p, ref) && VolumeAt(legs, p).executable == c.executable
        ensures c.imbalance <= Evaluate(legs, p).imbalance
      {
        MatchedIsNoBetter(pair, ref, p);
      }
    }
  }

  lemma MatchedIsNoBetter(pair: Pair, ref: Reference, p: nat)
    requires ref.quotePrice > 0
    requires Clear(pair, ref).Some? && BandEdges(ref).Some?
    requires p > 0 && InBand(p, ref) && Evaluate(LegsOf(pair), p).executable == Clear(pair, ref).value.executable
    requires forall n: nat :: n in Neighbours(LegsOf(pair)) && Eligible(n, ref, BandEdges(ref).value) ==>
      Matched(n, LegsOf(pair), ref, BandEdges(ref).value)
    ensures Clear(pair, ref).value.imbalance <= Evaluate(LegsOf(pair), p).imbalance
  {
    var c, legs, edges := Clear(pair, ref).value, LegsOf(pair), BandEdges(ref).value;
    BandEdgesExact(ref);
    hide InBand, Candidates, BandEdges, Clear, LegsOf, Neighbours, Evaluate, ReferencePairPrice;
    var x := StretchHasFirst(legs, ref, edges, p);
    NoWorseThan(legs, x, p, ReferencePairPrice(ref));
    var q := x;
    if x !in Candidates(legs, ref, edges) {
      assert Matched(x, legs, ref, edges);
      q :| q in Candidates(legs, ref, edges) && Eligible(q, ref, edges) && NoWorse(q, x, legs);
    }
    ClearMaximises(pair, ref, q);
    EvaluateExecutes(legs, q);
    TriedIsNoBetter(pair, ref, q);
  }

  lemma NoWorseThan(legs: seq<Leg>, x: nat, p: nat, pRef: nat)
    requires x == p || Better(Evaluate(legs, x), Evaluate(legs, p), pRef)
    ensures NoWorse(x, p, legs)
  {
  }

  lemma EvaluateExecutes(legs: seq<Leg>, p: nat)
    ensures Evaluate(legs, p).executable == VolumeAt(legs, p).executable
  {
  }

  /** What is missed, when it is: for a band that leaves out zero, clear minimises the imbalance over every price that
      executes the most, unless demand meets supply at some price in the band and at none of the prices clear tries. */
  lemma OnlyGapsAreMissed(pair: Pair, ref: Reference)
    requires ref.quotePrice > 0
    requires Clear(pair, ref).Some?
    requires BandEdges(ref).Some? && BandEdges(ref).value.lo > 0
    ensures var legs, tried := LegsOf(pair), Candidates(LegsOf(pair), ref, BandEdges(ref).value);
      LeastImbalance(Clear(pair, ref).value, legs, ref) <==>
        ((exists p: nat :: p > 0 && InBand(p, ref) && Balances(legs, p)) ==>
           exists q: nat :: q > 0 && InBand(q, ref) && q in tried && Balances(legs, q))
  {
    var c, legs, tried := Clear(pair, ref).value, LegsOf(pair), Candidates(LegsOf(pair), ref, BandEdges(ref).value);
    ClearIsTried(pair, ref);
    forall p: nat | p > 0 && InBand(p, ref) && Balances(legs, p) ensures VolumeAt(legs, p).executable == c.executable {
      ClearMaximises(pair, ref, p);
      BalancedIsMost(legs, p, c.price);
    }
    hide InBand, BandEdges, Clear, LegsOf, Candidates;
    if forall p: nat :: p > 0 && InBand(p, ref) ==> !Balances(legs, p) {
      forall p: nat | p > 0 && InBand(p, ref) && VolumeAt(legs, p).executable == c.executable
        ensures c.imbalance <= Evaluate(legs, p).imbalance
      {
        var q := UnbalancedIsTried(pair, ref, p);
        TriedIsNoBetter(pair, ref, q);
      }
    } else {
      var p: nat :| p > 0 && InBand(p, ref) && Balances(legs, p);
      if q: nat :| q > 0 && InBand(q, ref) && q in tried && Balances(legs, q) {
        TriedIsNoBetter(pair, ref, q);
      }
      assert LeastImbalance(c, legs, ref) ==> Balances(legs, c.price);
    }
  }

  lemma ClearIsTried(pair: Pair, ref: Reference)
    requires ref.quotePrice > 0
    requires Clear(pair, ref).Some? && BandEdges(ref).Some?
    ensures var c := Clear(pair, ref).value;
      c == Evaluate(LegsOf(pair), c.price) && c.price > 0 && InBand(c.price, ref)
      && c.price in Candidates(LegsOf(pair), ref, BandEdges(ref).value)
  {
    ClearSound(pair, ref);
    BestOfIsBest(Candidates(LegsOf(pair), ref, BandEdges(ref).value), LegsOf(pair), ref, BandEdges(ref).value);
  }

  lemma TriedIsNoBetter(pair: Pair, ref: Reference, q: nat)
    requires ref.quotePrice > 0
    requires Clear(pair, ref).Some? && BandEdges(ref).Some?
    requires q > 0 && InBand(q, ref) && q in Candidates(LegsOf(pair), ref, BandEdges(ref).value)
    requires VolumeAt(LegsOf(pair), q).executable == Clear(pair, ref).value.executable
    ensures Clear(pair, ref).value.imbalance <= Evaluate(LegsOf(pair), q).imbalance
  {
    ClearIsTried(pair, ref);
    if q != Clear(pair, ref).value.price {
      ClearIsBestTried(pair, ref, q);
    }
  }

  /** Four legs with a gap: demand meets supply at every price from 951 to 959, and clear tries none of them. */
  function GapPair(): Pair
  {
    Pair(2, 1, [
      BookEntry(0, Intent(1, 2, 1050, WAD, 0)), BookEntry(1, Intent(1, 2, 950, WAD, 0)),
      BookEntry(2, Intent(2, 1, WAD, 900, 0)), BookEntry(3, Intent(2, 1, WAD, 960, 0))])
  }

  function GapReference(): Reference { Reference(WAD, 1000, 1000) }

  function GapLegs(): seq<Leg>
  {
    [Leg(true, 1050, WAD), Leg(true, 950, WAD), Leg(false, WAD, 900), Leg(false, WAD, 960)]
  }

  lemma FourTerms(a: Leg, b: Leg, c: Leg, d: Leg, f: Leg -> int)
    ensures SumBy([a, b, c, d], f) == f(a) + f(b) + f(c) + f(d)
  {
    assert [a][..0] == [] && SumBy([a], f) == f(a);
    assert [a, b][..1] == [a] && SumBy([a, b], f) == f(a) + f(b);
    assert [a, b, c][..2] == [a, b] && SumBy([a, b, c], f) == f(a) + f(b) + f(c);
    assert [a, b, c, d][..3] == [a, b, c];
  }

  lemma GapVolume(p: nat)
    ensures var v := VolumeAt(GapLegs(), p);
      && v.demand == (if p <= 950 then 2 * WAD else if p <= 1050 then WAD else 0)
      && v.supply == (if p < 900 then 0 else if p < 960 then WAD else 2 * WAD)
  {
    var ls := GapLegs();
    FourTerms(ls[0], ls[1], ls[2], ls[3], DemandAt(p));
    FourTerms(ls[0], ls[1], ls[2], ls[3], SupplyAt(p));
  }

  lemma GapTries(edges: Edges, p: int)
    requires p in Candidates(GapLegs(), GapReference(), edges) && BandEdges(GapReference()) == Some(edges)
    ensures p in {900, 950, 960, 1000, 1050, 1100} || p == edges.lo || p == edges.hi
  {
    var ls := GapLegs();
    assert ls[..3] == [ls[0], ls[1], ls[2]] && ls[..2] == [ls[0], ls[1]] && ls[..1] == [ls[0]];
    LimitsMembers(ls, p);
  }

  /** Every in-band price from 951 to 959 balances; every price clear tries that executes as much is out by 1e18. */
  lemma GapPrices(p: nat)
    requires InBand(p, GapReference())
    ensures 900 <= p <= 1100
    ensures var v := Evaluate(GapLegs(), p);
      && v.executable == (if p <= 1050 then WAD else 0)
      && (p <= 1050 && !(950 < p < 960) ==> v.imbalance == WAD)
  {
    GapVolume(p);
  }

  /** clear does not always minimise the imbalance: it settles on a price with imbalance 1e18 where another in-band
      price executes the same volume with none. */
  lemma GapIsMissed()
    ensures Clear(GapPair(), GapReference()).Some?
    ensures var c, legs := Clear(GapPair(), GapReference()).value, LegsOf(GapPair());
      && InBand(955, GapReference()) && Evaluate(legs, 955).executable == c.executable
      && c.imbalance == WAD && Evaluate(legs, 955).imbalance == 0
  {
    assert LegsOf(GapPair()) == GapLegs();
    assert InBand(955, GapReference());
    GapVolume(955);
    ClearMaximises(GapPair(), GapReference(), 955);
    ClearSound(GapPair(), GapReference());
    GapPrice();
    GapPrices(Clear(GapPair(), GapReference()).value.price);
  }

  /** clear tries no price inside the gap. */
  lemma GapPrice()
    requires Clear(GapPair(), GapReference()).Some?
    ensures !(950 < Clear(GapPair(), GapReference()).value.price < 960)
  {
    assert LegsOf(GapPair()) == GapLegs();
    var edges := BandEdges(GapReference()).value;
    BestOfIsBest(Candidates(GapLegs(), GapReference(), edges), GapLegs(), GapReference(), edges);
    GapTries(edges, Clear(GapPair(), GapReference()).value.price);
    BandEdgesExact(GapReference());
    assert InBand(900, GapReference()) && InBand(1000, GapReference());
  }
}
