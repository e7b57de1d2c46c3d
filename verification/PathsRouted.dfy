/** When a pair is routed whole, told by its intents, the oracle and the venue (solver/src/solve.ts). */
module PathsRouted {
  import opened Common
  import opened Solutions
  import opened Clearing
  import opened Allocation
  import opened Solve
  import opened Outcomes
  import SolverMath

  // ----- one side and what the venue gives for it

  /** The intents that pay the quote token, or those that pay the base. */
  function OnSide(quote: Address, buying: bool): BookEntry -> bool
  {
    (e: BookEntry) => (e.intent.sellToken == quote) == buying
  }

  function Side(pair: Pair, buying: bool): seq<BookEntry> { Filter(pair.entries, OnSide(pair.quote, buying)) }

  function Sold(side: seq<BookEntry>): (r: int)
    ensures r >= 0
  {
    SumByNonNegative(side, SellAmountOf());
    SumBy(side, SellAmountOf())
  }

  function TokenIn(pair: Pair, buying: bool): Address { if buying then pair.quote else pair.base }

  function TokenOut(pair: Pair, buying: bool): Address { if buying then pair.base else pair.quote }

  /** The venue gives this much for all that the side sells. */
  predicate Gives(pair: Pair, venue: Venue, buying: bool, side: seq<BookEntry>, out: nat)
  {
    venue(TokenIn(pair, buying), TokenOut(pair, buying), Sold(side)) == Some(out)
  }

  /** Entry n's part of it: pro rata and rounded down, the last entry taking what is left. */
  function Part(side: seq<BookEntry>, out: nat, n: nat): int
    requires n < |side| && Sold(side) > 0
  {
    if n < |side| - 1 then out * side[n].intent.sellAmount / Sold(side)
    else out - SumBy(side[..n], FloorPart(out, Sold(side)))
  }

  function FloorPart(out: nat, total: nat): BookEntry -> int
    requires total > 0
  {
    (e: BookEntry) => out * e.intent.sellAmount / total
  }

  /** Entry n's part is nothing, or less than it asks for. */
  predicate Fails(side: seq<BookEntry>, out: nat, n: nat)
    requires n < |side| && Sold(side) > 0
  {
    Part(side, out, n) <= 0 || Part(side, out, n) < side[n].intent.minBuyAmount
  }

  lemma SoldPositive(side: seq<BookEntry>)
    requires AllSell(side) && side != []
    ensures Sold(side) > 0 && Sold(side) == SideTotal(side)
  {
    SidePositive(side);
  }

  /** The split hands out the parts. */
  lemma SplitIsParts(side: seq<BookEntry>, out: nat)
    requires side != [] && AllSell(side)
    ensures Sold(side) > 0
    ensures forall n :: 0 <= n < |side| ==>
      SplitOut(side, out)[n] == Fill(side[n].index, side[n].intent.sellAmount, SplitOut(side, out)[n].executedBuy)
        && SplitOut(side, out)[n].executedBuy == Part(side, out, n)
  {
    SoldPositive(side);
    var init, total := side[..|side| - 1], SideTotal(side);
    GivenWithin(side, out);
    SumByMap(init, ShareFill(out, total), BuyOf(), FloorPart(out, total));
    hide SideTotal, Sold;
  }

  lemma BrokenIsFails(side: seq<BookEntry>, out: nat, n: nat)
    requires side != [] && AllSell(side) && n < |side|
    ensures Sold(side) > 0
    ensures Broken(side[n].intent, SplitOut(side, out)[n]) <==> Fails(side, out, n)
  {
    SplitIsParts(side, out);
    assert side[n] in side;
    var i, part := side[n].intent, SplitOut(side, out)[n].executedBuy;
    MulCancel(i.minBuyAmount, part, i.sellAmount);
    hide SplitOut, Part, Sold;
  }

  /** The first entry that fails, by position. */
  lemma {:induction false} FirstBrokenAt(side: seq<BookEntry>, fills: seq<Fill>) returns (n: nat)
    requires |side| == |fills| && FirstBroken(side, fills).Some?
    ensures n < |side| && FirstBroken(side, fills) == Some(side[n]) && Broken(side[n].intent, fills[n])
    ensures forall k :: 0 <= k < n ==> !Broken(side[k].intent, fills[k])
  {
    hide Broken;
    var m := |side| - 1;
    if FirstBroken(side[..m], fills[..m]).Some? {
      n := FirstBrokenAt(side[..m], fills[..m]);
    } else {
      n := m;
    }
  }

  /** Taking out an entry by its index takes out its position. */
  lemma {:induction false} WithoutEntry(side: seq<BookEntry>, n: nat)
    requires DistinctEntries(side) && n < |side|
    ensures Filter(side, OtherEntry(side[n].index)) == side[..n] + side[n + 1..]
  {
    var p := OtherEntry(side[n].index);
    assert side == side[..n] + [side[n]] + side[n + 1..];
    FilterAppend(side[..n] + [side[n]], side[n + 1..], p);
    FilterAppend(side[..n], [side[n]], p);
    FilterAll(side[..n], p);
    FilterAll(side[n + 1..], p);
    FilterNone([side[n]], p);
  }

  // ----- the passes

  /** One pass: the venue gives something for the side, an entry fails, and the first that does is taken out. */
  ghost predicate Drops(pair: Pair, venue: Venue, buying: bool, side: seq<BookEntry>, next: seq<BookEntry>)
  {
    && side != [] && Sold(side) > 0
    && exists out: nat, n: nat :: Gives(pair, venue, buying, side, out) && n < |side| && Fails(side, out, n)
         && (forall k :: 0 <= k < n ==> !Fails(side, out, k)) && next == side[..n] + side[n + 1..]
  }

  /** A run of such passes. */
  ghost predicate Passes(pair: Pair, venue: Venue, buying: bool, passes: seq<seq<BookEntry>>)
  {
    passes != [] && forall k :: 0 <= k < |passes| - 1 ==> Drops(pair, venue, buying, passes[k], passes[k + 1])
  }

  /** The worse of the base unit prices the parts imply: the lowest a buyer pays, rounded down, or the highest a seller
      gets, rounded up. */
  predicate WorstPrice(side: seq<BookEntry>, out: nat, q: nat, buying: bool, price: nat)
    requires Sold(side) > 0
  {
    && (forall n :: 0 <= n < |side| ==> if buying then
          price * Part(side, out, n) <= side[n].intent.sellAmount * q
        else Part(side, out, n) * q <= price * side[n].intent.sellAmount)
    && (exists n :: 0 <= n < |side| && if buying then
          side[n].intent.sellAmount * q < (price + 1) * Part(side, out, n)
        else (price - 1) * side[n].intent.sellAmount < Part(side, out, n) * q)
  }

  /** At the prices of the two tokens, what the entry gets is within the fee of what it gives. */
  predicate WithinFee(side: seq<BookEntry>, out: nat, n: nat, q: nat, buying: bool, price: nat)
    requires Sold(side) > 0 && n < |side|
  {
    var sold, part := side[n].intent.sellAmount, Part(side, out, n);
    var valueIn, valueOut := if buying then sold * q else sold * price, if buying then part * price else part * q;
    valueOut <= valueIn && (valueIn - valueOut) * BPS <= valueIn * FEE_CAP_NOTIONAL_BPS
  }

  /** The side stands: no entry fails, and one price in the band suits them all. */
  ghost predicate Stands(pair: Pair, ref: Reference, venue: Venue, buying: bool, side: seq<BookEntry>, out: nat,
      price: nat)
  {
    && side != [] && Sold(side) > 0 && Gives(pair, venue, buying, side, out)
    && (forall n :: 0 <= n < |side| ==> !Fails(side, out, n))
    && WorstPrice(side, out, ref.quotePrice, buying, price)
    && Abs(price - ref.basePrice) * BPS <= ref.basePrice * ref.maxDeviationBps
    && (forall n :: 0 <= n < |side| ==> WithinFee(side, out, n, ref.quotePrice, buying, price))
  }

  /** The side is kept routed: every entry whole, for its part, in one call, at that price. */
  ghost predicate RoutedAs(pair: Pair, buying: bool, side: seq<BookEntry>, out: nat, price: nat, o: PairOutcome)
    requires Sold(side) > 0
  {
    && o.Kept? && o.mode == Routed && o.base == pair.base && o.basePrice == price
    && o.venueCalls == [VenueCall(TokenIn(pair, buying), TokenOut(pair, buying), Sold(side), out)]
    && |o.fills| == |side|
    && (forall n :: 0 <= n < |side| ==>
          o.fills[n].index == side[n].index && o.fills[n].executedSell == side[n].intent.sellAmount
            && o.fills[n].executedBuy == Part(side, out, n))
    && (forall n :: 0 <= n < |side| ==>
          side[n].index in o.baselines && o.baselines[side[n].index] == Part(side, out, n))
  }

  lemma {:induction false} WorstImpliedIs(fills: seq<Fill>, buying: bool, q: nat)
    requires fills != [] && forall f :: f in fills ==> f.executedSell > 0 && f.executedBuy > 0
    ensures var price := WorstImplied(fills, buying, q);
      && (forall f :: f in fills ==>
            if buying then price * f.executedBuy <= f.executedSell * q else f.executedBuy * q <= price * f.executedSell)
      && (exists f :: f in fills && if buying then f.executedSell * q < (price + 1) * f.executedBuy
            else (price - 1) * f.executedSell < f.executedBuy * q)
  {
    var last := fills[|fills| - 1];
    assert last in fills;
    ImpliedIs(last, buying, q);
    hide Implied;
    if |fills| > 1 {
      var init := fills[..|fills| - 1];
      WorstImpliedIs(init, buying, q);
      assert forall f :: f in fills <==> f in init || f == last;
      var price, rest, own := WorstImplied(fills, buying, q), WorstImplied(init, buying, q), Implied(last, buying, q);
      forall f | f in fills
        ensures if buying
          then price * f.executedBuy <= f.executedSell * q else f.executedBuy * q <= price * f.executedSell
      {
        if buying {
          MulMono(price, rest, f.executedBuy);
          MulMono(price, own, f.executedBuy);
        } else {
          MulMono(rest, price, f.executedSell);
          MulMono(own, price, f.executedSell);
        }
      }
    }
  }

  lemma ImpliedIs(f: Fill, buying: bool, q: nat)
    requires f.executedSell > 0 && f.executedBuy > 0
    ensures var price := Implied(f, buying, q);
      if buying then price * f.executedBuy <= f.executedSell * q < (price + 1) * f.executedBuy
      else (price - 1) * f.executedSell < f.executedBuy * q <= price * f.executedSell
  {
    assert f.executedSell * q >= 0 && f.executedBuy * q >= 0;
    if buying {
      FloorDiv(f.executedSell * q, f.executedBuy, 0);
      Spread(Implied(f, buying, q), 1, f.executedBuy);
    } else {
      CeilingDiv(f.executedBuy * q, f.executedSell, 0);
      Spread(Implied(f, buying, q), -1, f.executedSell);
    }
  }

  // ----- what the passes come to

  /** The worst price is one. */
  lemma WorstIsOne(side: seq<BookEntry>, out: nat, q: nat, buying: bool, a: nat, b: nat)
    requires Sold(side) > 0 && AllSell(side) && forall n :: 0 <= n < |side| ==> !Fails(side, out, n)
    requires WorstPrice(side, out, q, buying, a) && WorstPrice(side, out, q, buying, b)
    ensures a == b
  {
    WorstIsAtMost(side, out, q, buying, a, b);
    WorstIsAtMost(side, out, q, buying, b, a);
  }

  lemma WorstIsAtMost(side: seq<BookEntry>, out: nat, q: nat, buying: bool, a: nat, b: nat)
    requires Sold(side) > 0 && AllSell(side) && forall n :: 0 <= n < |side| ==> !Fails(side, out, n)
    requires WorstPrice(side, out, q, buying, a) && WorstPrice(side, out, q, buying, b)
    ensures if buying then a <= b else b <= a
  {
    hide Part, Sold;
    var n :| 0 <= n < |side| && if buying then
        side[n].intent.sellAmount * q < (b + 1) * Part(side, out, n)
      else (b - 1) * side[n].intent.sellAmount < Part(side, out, n) * q;
    assert side[n] in side;
    assert !Fails(side, out, n);
    if buying {
      assert a * Part(side, out, n) <= side[n].intent.sellAmount * q;
      MulCancel(a, b + 1, Part(side, out, n));
    } else {
      assert Part(side, out, n) * q <= a * side[n].intent.sellAmount;
      MulCancel(b - 1, a, side[n].intent.sellAmount);
    }
  }

  /** The price the side implies is the worst, by its parts. */
  lemma ImpliedIsWorst(side: seq<BookEntry>, out: nat, q: nat, buying: bool)
    requires side != [] && AllSell(side) && Sold(side) > 0
    requires forall n :: 0 <= n < |side| ==> !Fails(side, out, n)
    ensures WorstPrice(side, out, q, buying, WorstImplied(SplitOut(side, out), buying, q))
  {
    hide SplitOut, Part, Sold, WorstImplied;
    var fills := SplitOut(side, out);
    SplitIsParts(side, out);
    forall f | f in fills ensures f.executedSell > 0 && f.executedBuy > 0 {
      var n :| 0 <= n < |fills| && fills[n] == f;
      assert side[n] in side && !Fails(side, out, n);
    }
    WorstImpliedIs(fills, buying, q);
    hide Fails;
    var price := WorstImplied(fills, buying, q);
    forall n | 0 <= n < |side|
      ensures if buying then price * Part(side, out, n) <= side[n].intent.sellAmount * q
        else Part(side, out, n) * q <= price * side[n].intent.sellAmount
    {
      assert fills[n] in fills;
    }
    var f :| f in fills && if buying then f.executedSell * q < (price + 1) * f.executedBuy
      else (price - 1) * f.executedSell < f.executedBuy * q;
    var n :| 0 <= n < |fills| && fills[n] == f;
    assert fills[n].executedBuy == Part(side, out, n);
  }

  lemma FeeIs(side: seq<BookEntry>, out: nat, n: nat, q: nat, buying: bool, price: nat)
    requires side != [] && AllSell(side) && Sold(side) > 0 && n < |side|
    ensures UniformAt(SplitOut(side, out)[n], buying, q, price) <==> WithinFee(side, out, n, q, buying, price)
  {
    SplitIsParts(side, out);
    hide SplitOut, Part, Sold;
  }

  /** The last pass of the loop, by its own figures. */
  lemma LastPass(pair: Pair, side: seq<BookEntry>, buying: bool, ref: Reference, venue: Venue, out: nat)
    requires side != [] && AllSell(side) && Gives(pair, venue, buying, side, out)
    requires FirstBroken(side, SplitOut(side, out)).None?
    ensures var o, fills := RouteSide(pair, side, buying, ref, venue), SplitOut(side, out);
      var price := WorstImplied(fills, buying, ref.quotePrice);
      && (o.Kept? <==>
            && SolverMath.WithinBand(price, ref.basePrice, ref.maxDeviationBps)
            && forall f :: f in fills ==> UniformAt(f, buying, ref.quotePrice, price))
      && (o.Kept? ==> o == Kept(pair.base, Routed, fills, BuyMap(fills), price,
            [VenueCall(TokenIn(pair, buying), TokenOut(pair, buying), Sold(side), out)]))
  {
    SoldPositive(side);
    hide SplitOut, FirstBroken, WorstImplied, UniformAt, BuyMap, SideTotal, Sold, SolverMath.WithinBand;
  }

  /** Where no entry fails, the side is kept exactly when it stands. */
  lemma StandsExactly(pair: Pair, side: seq<BookEntry>, buying: bool, ref: Reference, venue: Venue, out: nat)
    requires side != [] && AllSell(side) && DistinctEntries(side) && Sold(side) > 0
    requires Gives(pair, venue, buying, side, out) && forall n :: 0 <= n < |side| ==> !Fails(side, out, n)
    ensures var o := RouteSide(pair, side, buying, ref, venue);
      && (o.Kept? ==>
            && Stands(pair, ref, venue, buying, side, out, o.basePrice)
            && RoutedAs(pair, buying, side, out, o.basePrice, o))
      && ((exists price: nat :: Stands(pair, ref, venue, buying, side, out, price)) ==> o.Kept?)
  {
    hide SplitOut, Part, Sold, WorstImplied, UniformAt, WithinFee, Broken, RouteSide, WorstPrice, BuyMap, Gives,
      FirstBroken;
    var fills := SplitOut(side, out);
    var q, price := ref.quotePrice, WorstImplied(fills, buying, ref.quotePrice);
    SplitIsParts(side, out);
    forall n | 0 <= n < |side| ensures !Broken(side[n].intent, fills[n]) {
      BrokenIsFails(side, out, n);
    }
    NoneBroken(side, fills);
    LastPass(pair, side, buying, ref, venue, out);
    ImpliedIsWorst(side, out, q, buying);
    AllWithinFee(side, out, q, buying, price);
    BuyMapIs(side, fills);
    hide Fails;
    forall other: nat | Stands(pair, ref, venue, buying, side, out, other) ensures other == price {
      WorstIsOne(side, out, q, buying, other, price);
    }
  }

  lemma AllWithinFee(side: seq<BookEntry>, out: nat, q: nat, buying: bool, price: nat)
    requires side != [] && AllSell(side) && Sold(side) > 0
    ensures (forall f :: f in SplitOut(side, out) ==> UniformAt(f, buying, q, price)) <==>
      forall n :: 0 <= n < |side| ==> WithinFee(side, out, n, q, buying, price)
  {
    var fills := SplitOut(side, out);
    hide SplitOut, Part, Sold, UniformAt, WithinFee;
    forall n | 0 <= n < |side|
      ensures UniformAt(fills[n], buying, q, price) <==> WithinFee(side, out, n, q, buying, price)
    {
      FeeIs(side, out, n, q, buying, price);
    }
    if forall f :: f in fills ==> UniformAt(f, buying, q, price) {
      forall n | 0 <= n < |side| ensures WithinFee(side, out, n, q, buying, price) {
        assert fills[n] in fills;
      }
    }
  }

  lemma {:induction false} NoneBroken(side: seq<BookEntry>, fills: seq<Fill>)
    requires |side| == |fills| && forall n :: 0 <= n < |side| ==> !Broken(side[n].intent, fills[n])
    ensures FirstBroken(side, fills).None?
  {
    if FirstBroken(side, fills).Some? {
      var n := FirstBrokenAt(side, fills);
    }
  }

  /** Each fill is its own baseline. */
  lemma BuyMapIs(side: seq<BookEntry>, fills: seq<Fill>)
    requires |fills| == |side| && DistinctEntries(side)
    requires forall n :: 0 <= n < |side| ==> fills[n].index == side[n].index
    ensures forall n :: 0 <= n < |side| ==>
      side[n].index in BuyMap(fills) && BuyMap(fills)[side[n].index] == fills[n].executedBuy
  {
    SetAllFacts(map[], fills, ExecutedBuys(fills));
    hide SetAll;
  }

  /** A pass that drops an entry leaves the rest of the loop to what remains. */
  lemma OneDrop(pair: Pair, side: seq<BookEntry>, buying: bool, ref: Reference, venue: Venue, out: nat, n: nat)
    requires side != [] && AllSell(side) && DistinctEntries(side) && Sold(side) > 0
    requires Gives(pair, venue, buying, side, out) && n < |side| && Fails(side, out, n)
    requires forall k :: 0 <= k < n ==> !Fails(side, out, k)
    ensures var next := side[..n] + side[n + 1..];
      && AllSell(next) && DistinctEntries(next)
      && RouteSide(pair, side, buying, ref, venue) == RouteSide(pair, next, buying, ref, venue)
  {
    hide SplitOut, Part, Sold, SideTotal, Broken, Fails, RouteSide, FirstBroken, Gives, Filter;
    var fills := SplitOut(side, out);
    forall k | 0 <= k <= n ensures Broken(side[k].intent, fills[k]) <==> k == n {
      BrokenIsFails(side, out, k);
    }
    SomeBroken(side, fills, n);
    var m := FirstBrokenAt(side, fills);
    WithoutEntry(side, n);
    RouteOn(pair, side, buying, ref, venue, out, n);
  }

  lemma SomeBroken(side: seq<BookEntry>, fills: seq<Fill>, n: nat)
    requires |side| == |fills| && n < |side| && Broken(side[n].intent, fills[n])
    ensures FirstBroken(side, fills).Some?
  {
  }

  lemma RouteOn(pair: Pair, side: seq<BookEntry>, buying: bool, ref: Reference, venue: Venue, out: nat, n: nat)
    requires side != [] && AllSell(side) && Gives(pair, venue, buying, side, out) && n < |side|
    requires FirstBroken(side, SplitOut(side, out)) == Some(side[n])
    requires Filter(side, OtherEntry(side[n].index)) == side[..n] + side[n + 1..]
    ensures AllSell(side[..n] + side[n + 1..])
    ensures RouteSide(pair, side, buying, ref, venue) ==
      RouteSide(pair, side[..n] + side[n + 1..], buying, ref, venue)
  {
    SoldPositive(side);
    hide SplitOut, FirstBroken, WorstImplied, UniformAt, BuyMap, SideTotal, Sold, SolverMath.WithinBand;
  }

  /** A run of passes ends on a side that stands. */
  ghost predicate Routes(pair: Pair, ref: Reference, venue: Venue, buying: bool, passes: seq<seq<BookEntry>>, out: nat,
      price: nat)
  {
    Passes(pair, venue, buying, passes) && Stands(pair, ref, venue, buying, passes[|passes| - 1], out, price)
  }

  /** Whatever is kept comes of such a run. */
  lemma {:induction false} KeptRoutes(pair: Pair, side: seq<BookEntry>, buying: bool, ref: Reference, venue: Venue)
    returns (passes: seq<seq<BookEntry>>, out: nat)
    requires AllSell(side) && DistinctEntries(side) && RouteSide(pair, side, buying, ref, venue).Kept?
    ensures var o := RouteSide(pair, side, buying, ref, venue);
      && Routes(pair, ref, venue, buying, passes, out, o.basePrice) && passes[0] == side
      && RoutedAs(pair, buying, passes[|passes| - 1], out, o.basePrice, o)
    decreases |side|
  {
    hide RoutedAs, Stands, RouteSide, Fails, Gives, Sold, Drops, AllSell, DistinctEntries;
    out := GivenOut(pair, side, buying, ref, venue);
    if n: nat :| n < |side| && Fails(side, out, n) {
      var first := FirstFail(side, out, n);
      OneDrop(pair, side, buying, ref, venue, out, first);
      var next := side[..first] + side[first + 1..];
      DropIs(pair, venue, buying, side, out, first);
      passes, out := KeptRoutes(pair, next, buying, ref, venue);
      LongerPasses(pair, venue, buying, side, passes);
      passes := [side] + passes;
    } else {
      StandsExactly(pair, side, buying, ref, venue, out);
      passes := [side];
    }
  }

  lemma DropIs(pair: Pair, venue: Venue, buying: bool, side: seq<BookEntry>, out: nat, n: nat)
    requires side != [] && Sold(side) > 0 && Gives(pair, venue, buying, side, out)
    requires n < |side| && Fails(side, out, n) && forall k :: 0 <= k < n ==> !Fails(side, out, k)
    ensures Drops(pair, venue, buying, side, side[..n] + side[n + 1..])
  {
    hide Gives, Fails, Sold;
  }

  lemma GivenOut(pair: Pair, side: seq<BookEntry>, buying: bool, ref: Reference, venue: Venue) returns (out: nat)
    requires AllSell(side) && RouteSide(pair, side, buying, ref, venue).Kept?
    ensures side != [] && Sold(side) > 0 && Gives(pair, venue, buying, side, out)
  {
    SoldPositive(side);
    hide SplitOut, FirstBroken, WorstImplied, UniformAt, BuyMap, SideTotal, Sold, SolverMath.WithinBand;
    out := venue(TokenIn(pair, buying), TokenOut(pair, buying), Sold(side)).value;
  }

  lemma {:induction false} FirstFail(side: seq<BookEntry>, out: nat, n: nat) returns (first: nat)
    requires Sold(side) > 0 && n < |side| && Fails(side, out, n)
    ensures first <= n && Fails(side, out, first) && forall k :: 0 <= k < first ==> !Fails(side, out, k)
  {
    hide Fails;
    first := n;
    if k: nat :| k < n && Fails(side, out, k) {
      first := FirstFail(side, out, k);
    }
  }

  lemma LongerPasses(pair: Pair, venue: Venue, buying: bool, side: seq<BookEntry>, passes: seq<seq<BookEntry>>)
    requires Passes(pair, venue, buying, passes) && Drops(pair, venue, buying, side, passes[0])
    ensures Passes(pair, venue, buying, [side] + passes)
  {
    hide Drops;
    var all := [side] + passes;
    forall k | 0 <= k < |all| - 1 ensures Drops(pair, venue, buying, all[k], all[k + 1]) {
      if k > 0 {
        assert all[k] == passes[k - 1] && all[k + 1] == passes[k - 1 + 1];
      }
    }
  }

  /** Every such run is what the loop does, and the side it ends on is kept. */
  lemma {:induction false} RoutesKept(pair: Pair, side: seq<BookEntry>, buying: bool, ref: Reference, venue: Venue,
      passes: seq<seq<BookEntry>>, out: nat, price: nat)
    requires AllSell(side) && DistinctEntries(side)
    requires Routes(pair, ref, venue, buying, passes, out, price) && passes[0] == side
    ensures var o := RouteSide(pair, side, buying, ref, venue);
      o.Kept? && RoutedAs(pair, buying, passes[|passes| - 1], out, price, o)
    decreases |passes|
  {
    if |passes| == 1 {
      StandsAsPriced(pair, side, buying, ref, venue, out, price);
    } else {
      assert Drops(pair, venue, buying, passes[0], passes[1]);
      var given: nat, n: nat :| Gives(pair, venue, buying, side, given) && n < |side| && Fails(side, given, n)
        && (forall k :: 0 <= k < n ==> !Fails(side, given, k)) && passes[1] == side[..n] + side[n + 1..];
      OneDrop(pair, side, buying, ref, venue, given, n);
      hide Drops, Stands, RoutedAs, RouteSide, Fails, Gives;
      ShorterPasses(pair, venue, buying, passes);
      RoutesKept(pair, passes[1], buying, ref, venue, passes[1..], out, price);
    }
  }

  lemma ShorterPasses(pair: Pair, venue: Venue, buying: bool, passes: seq<seq<BookEntry>>)
    requires |passes| > 1 && Passes(pair, venue, buying, passes)
    ensures Passes(pair, venue, buying, passes[1..])
    ensures passes[1..][0] == passes[1] && passes[1..][|passes| - 2] == passes[|passes| - 1]
  {
    hide Drops;
    forall k | 0 <= k < |passes| - 2 ensures Drops(pair, venue, buying, passes[1..][k], passes[1..][k + 1]) {
      assert passes[1..][k] == passes[k + 1] && passes[1..][k + 1] == passes[k + 1 + 1];
    }
  }

  lemma StandsAsPriced(pair: Pair, side: seq<BookEntry>, buying: bool, ref: Reference, venue: Venue, out: nat,
      price: nat)
    requires AllSell(side) && DistinctEntries(side) && Stands(pair, ref, venue, buying, side, out, price)
    ensures var o := RouteSide(pair, side, buying, ref, venue);
      o.Kept? && RoutedAs(pair, buying, side, out, price, o)
  {
    hide RouteSide, RoutedAs, WorstPrice, WithinFee, Fails, Gives, Sold;
    StandsExactly(pair, side, buying, ref, venue, out);
    var o := RouteSide(pair, side, buying, ref, venue);
    WorstIsOne(side, out, ref.quotePrice, buying, price, o.basePrice);
  }
}
