/** Building an auction cross and mirroring the contract's checks on it (solver/src/cross.ts). */
module Cross {
  import opened Common
  import opened Solutions

  const MOO := 1
  const LOO := 2

  /** One commitment in an auction's book. Any kind that is neither MOO nor LOO is priced off the reference. */
  datatype Commitment = Commitment(
    index: nat, buy: bool, escrowed: bool, cancelled: bool, kind: nat, maxDevFromRefBps: nat,
    sellAmount: nat, limitPrice: nat, filledSell: nat)
  {
    /** Tokens of the sold side not filled yet. */
    function Remaining(): int { sellAmount - filledSell }
  }

  /** The reference price of the day, and whether reference-priced commitments sit this auction out. */
  datatype Day = Day(ref: nat, rooExcluded: bool)

  function QuoteOf(tokenAmount: nat, price: nat): nat { tokenAmount * price / WAD }

  function TokenOf(quoteAmount: int, price: nat): int
    requires price > 0
  {
    TruncDiv(quoteAmount * WAD, price)
  }

  datatype Limit = Limit(limit: int, participating: bool)

  function EffectiveLimit(c: Commitment, day: Day): Limit
  {
    if c.kind == MOO then Limit(0, true)
    else if c.kind == LOO then Limit(c.limitPrice, true)
    else if day.rooExcluded || day.ref == 0 then Limit(0, false)
    else Limit(TruncDiv(day.ref * (if c.buy then BPS + c.maxDevFromRefBps else BPS - c.maxDevFromRefBps), BPS), true)
  }

  /** Who takes part at this price. */
  predicate InAt(c: Commitment, price: nat, day: Day)
  {
    var l := EffectiveLimit(c, day);
    && !c.cancelled && c.escrowed && l.participating
    && (l.limit == 0 || (if c.buy then price <= l.limit else price >= l.limit))
  }

  // ----- matching

  function DemandAt(price: nat, day: Day): Commitment -> int
    requires price > 0
  {
    (c: Commitment) => if c.buy && InAt(c, price, day) then TokenOf(c.sellAmount, price) else 0
  }

  function SupplyAt(price: nat, day: Day): Commitment -> int
  {
    (c: Commitment) => if !c.buy && InAt(c, price, day) then c.sellAmount else 0
  }

  datatype Matching = Matching(demand: int, supply: int, matched: int)

  function Match(book: seq<Commitment>, price: nat, day: Day): Matching
  {
    if price == 0 then Matching(0, 0, 0)
    else
      var demand, supply := SumBy(book, DemandAt(price, day)), SumBy(book, SupplyAt(price, day));
      Matching(demand, supply, Min(demand, supply))
  }

  /** The loop over the book. */
  method MatchLoop(book: seq<Commitment>, price: nat, day: Day) returns (r: Matching)
    ensures r == Match(book, price, day)
  {
    if price == 0 {
      return Matching(0, 0, 0);
    }
    var demand, supply := 0, 0;
    for k := 0 to |book|
      invariant demand == SumBy(book[..k], DemandAt(price, day)) && supply == SumBy(book[..k], SupplyAt(price, day))
    {
      SumByStep(book, k, DemandAt(price, day));
      SumByStep(book, k, SupplyAt(price, day));
      var c := book[k];
      if InAt(c, price, day) {
        if c.buy { demand := demand + TokenOf(c.sellAmount, price); } else { supply := supply + c.sellAmount; }
      }
    }
    assert book[..|book|] == book;
    r := Matching(demand, supply, if demand < supply then demand else supply);
  }

  /** Demand no longer exceeds supply. */
  predicate Balanced(book: seq<Commitment>, price: nat, day: Day)
  {
    Match(book, price, day).demand <= Match(book, price, day).supply
  }

  lemma OneMonotone(c: Commitment, p: nat, q: nat, day: Day)
    requires 0 < p <= q
    ensures DemandAt(q, day)(c) <= DemandAt(p, day)(c)
    ensures SupplyAt(p, day)(c) <= SupplyAt(q, day)(c)
  {
    var paid := c.sellAmount * WAD;
    FloorDiv(paid, p, paid / q);
    FloorDiv(paid, q, paid / q);
    MulMono(p, q, paid / q);
  }

  /** As the price rises demand only falls and supply only grows. At price zero the match answers zero on both sides,
      which is why the prices compared start at one. */
  lemma MatchMonotone(book: seq<Commitment>, p: nat, q: nat, day: Day)
    requires 0 < p <= q
    ensures Match(book, q, day).demand <= Match(book, p, day).demand
    ensures Match(book, p, day).supply <= Match(book, q, day).supply
    ensures Balanced(book, p, day) ==> Balanced(book, q, day)
  {
    forall c: Commitment
      ensures DemandAt(q, day)(c) <= DemandAt(p, day)(c) && SupplyAt(p, day)(c) <= SupplyAt(q, day)(c) {
      OneMonotone(c, p, q, day);
    }
    hide DemandAt, SupplyAt;
    SumByLe(book, DemandAt(q, day), DemandAt(p, day));
    SumByLe(book, SupplyAt(p, day), SupplyAt(q, day));
  }

  // ----- the balancing price

  /** The price the bisection of [lo, hi] ends at. */
  function Bisect(book: seq<Commitment>, lo: nat, hi: nat, day: Day): nat
    requires lo <= hi
    decreases hi - lo
  {
    if lo == hi then lo
    else
      var mid := (lo + hi) / 2;
      if Balanced(book, mid, day) then Bisect(book, lo, mid, day) else Bisect(book, mid + 1, hi, day)
  }

  function BalancingPrice(book: seq<Commitment>, from: nat, to: nat, day: Day): Option<nat>
  {
    if from > to || !Balanced(book, to, day) then None else Some(Bisect(book, from, to, day))
  }

  /** The bisection loop. */
  method BalancingLoop(book: seq<Commitment>, from: nat, to: nat, day: Day) returns (r: Option<nat>)
    ensures r == BalancingPrice(book, from, to, day)
  {
    if from > to {
      return None;
    }
    var m := MatchLoop(book, to, day);
    if m.demand > m.supply {
      return None;
    }
    var lo, hi := from, to;
    while lo < hi
      invariant from <= lo <= hi <= to
      invariant Bisect(book, from, to, day) == Bisect(book, lo, hi, day)
      decreases hi - lo
    {
      hide Match;
      var mid := (lo + hi) / 2;
      m := MatchLoop(book, mid, day);
      if m.demand <= m.supply { hi := mid; } else { lo := mid + 1; }
    }
    r := Some(lo);
  }

  /** What any bisection finds: a balanced price whose predecessor, if it is in range, is not. */
  lemma {:induction false} BisectEdge(book: seq<Commitment>, lo: nat, hi: nat, day: Day)
    requires lo <= hi && Balanced(book, hi, day)
    ensures lo <= Bisect(book, lo, hi, day) <= hi
    ensures Balanced(book, Bisect(book, lo, hi, day), day)
    ensures Bisect(book, lo, hi, day) > lo ==> !Balanced(book, Bisect(book, lo, hi, day) - 1, day)
    decreases hi - lo
  {
    hide Balanced;
    if lo < hi {
      var mid := (lo + hi) / 2;
      if Balanced(book, mid, day) { BisectEdge(book, lo, mid, day); } else { BisectEdge(book, mid + 1, hi, day); }
    }
  }

  /** The search fails exactly when the top of the range is unbalanced or the range is empty, and what it finds is the
      least balanced price in range. From zero it may also answer zero; otherwise it is the least from one up. */
  lemma BalancingIsLeast(book: seq<Commitment>, from: nat, to: nat, day: Day)
    ensures BalancingPrice(book, from, to, day).None? <==> from > to || !Balanced(book, to, day)
    ensures match BalancingPrice(book, from, to, day)
      case None => true
      case Some(p) =>
        && from <= p <= to && Balanced(book, p, day)
        && (p > 0 ==> forall q :: Max(from, 1) <= q < p ==> !Balanced(book, q, day))
  {
    if from <= to && Balanced(book, to, day) {
      BisectEdge(book, from, to, day);
      var p := Bisect(book, from, to, day);
      if p > 0 {
        forall q | Max(from, 1) <= q < p ensures !Balanced(book, q, day) {
          MatchMonotone(book, q, p - 1, day);
        }
      }
    }
  }
}
