/** What an allocation comes to, in each intent's own terms (allocate in solver/src/clearing.ts). */
module AllocationTerms {
  import opened Common
  import opened Solutions
  import opened Clearing
  import opened Rationing
  import opened Allocation
  import opened RationTerms

  // ----- who takes part

  /** A buyer pays at least the price, a seller asks at most the price. */
  predicate Accepts(i: Intent, quote: Address, price: nat)
  {
    if i.sellToken == quote then i.minBuyAmount * price <= i.sellAmount * WAD
    else i.minBuyAmount * WAD <= i.sellAmount * price
  }

  /** It accepts a worse price too. */
  predicate AcceptsWorse(i: Intent, quote: Address, price: nat)
  {
    if i.sellToken == quote then i.minBuyAmount * price < i.sellAmount * WAD
    else i.minBuyAmount * WAD < i.sellAmount * price
  }

  /** It accepts the price and trades some base at it. */
  function TakesPart(quote: Address, price: nat, q: nat, b: nat): BookEntry -> bool
  {
    (e: BookEntry) =>
      Accepts(e.intent, quote, price) && if e.intent.sellToken == quote then b <= e.intent.sellAmount * q
        else e.intent.sellAmount > 0
  }

  /** The candidate speaks for the entry: its side, its flags, whether it leads, and all the base it could trade. */
  predicate SpeaksFor(c: Candidate, e: BookEntry, quote: Address, price: nat, q: nat, b: nat)
  {
    && c.index == e.index && c.intent == e.intent && c.buys == (e.intent.sellToken == quote)
    && c.partial == e.intent.Partial() && c.better == AcceptsWorse(e.intent, quote, price)
    && if c.buys then c.size * b <= e.intent.sellAmount * q < (c.size + 1) * b else c.size == e.intent.sellAmount
  }

  predicate SpeakForAll(live: seq<Candidate>, entries: seq<BookEntry>, quote: Address, price: nat, q: nat, b: nat)
  {
    |live| == |entries| && forall k :: 0 <= k < |live| ==> SpeaksFor(live[k], entries[k], quote, price, q, b)
  }

  lemma ScreenIs(e: BookEntry, quote: Address, price: nat, q: nat, b: nat)
    requires b > 0
    ensures Screen(e, quote, price, q, b).Ok? <==> TakesPart(quote, price, q, b)(e)
    ensures Screen(e, quote, price, q, b).Ok? ==>
      SpeaksFor(Screen(e, quote, price, q, b).value, e, quote, price, q, b)
  {
    assert e.intent.sellAmount * q >= 0;
    FloorDiv(e.intent.sellAmount * q, b, 1);
    FloorDiv(e.intent.sellAmount * q, b, 0);
    Spread(e.intent.sellAmount * q / b, 1, b);
  }

  lemma {:induction false} AcceptedSpeak(entries: seq<BookEntry>, quote: Address, price: nat, q: nat, b: nat)
    requires b > 0
    ensures SpeakForAll(Accepted(entries, quote, price, q, b), Filter(entries, TakesPart(quote, price, q, b)), quote,
      price, q, b)
  {
    hide SpeaksFor, Screen, TakesPart;
    if entries != [] {
      AcceptedSpeak(entries[..|entries| - 1], quote, price, q, b);
      ScreenIs(entries[|entries| - 1], quote, price, q, b);
    }
  }

  // ----- what each is given

  /** The side with less base is given all of it; the other is rationed to that and what a venue adds. */
  ghost predicate Allotted(live: seq<Candidate>, venueBase: nat, m: Allot)
  {
    var buyers, sellers := Filter(live, Buys()), Filter(live, Sells());
    if SumBy(buyers, SizeOf()) > SumBy(sellers, SizeOf()) then GivenTo(sellers, buyers, venueBase, m)
    else GivenTo(buyers, sellers, venueBase, m)
  }

  ghost predicate GivenTo(short: seq<Candidate>, long: seq<Candidate>, venueBase: nat, m: Allot)
  {
    && (forall c :: c in short ==> Get(m, c.index) == c.size)
    && SumBy(short, SizeOf()) >= 0 && SideGiven(long, SumBy(short, SizeOf()) + venueBase, m)
  }

  /** What an allotment of base is worth: a buyer pays for it rounded up, all it has if it gets all it could, and a
      seller is paid for it rounded down. */
  predicate FillIs(c: Candidate, a: nat, q: nat, b: nat, f: Fill)
  {
    && f.index == c.index
    && if c.buys then
         && f.executedBuy == a
         && if a == c.size then f.executedSell == c.intent.sellAmount
            else (f.executedSell - 1) * q < a * b <= f.executedSell * q
       else f.executedSell == a && f.executedBuy * q <= a * b < (f.executedBuy + 1) * q
  }

  /** It sells more than the intent has, or less where the intent is all or nothing, or brings nothing, or less than the
      intent asks, or the rounding costs more than the fee allows. */
  predicate Breaks(i: Intent, f: Fill, buys: bool, q: nat, b: nat)
  {
    var valueIn := if buys then f.executedSell * q else f.executedSell * b;
    var valueOut := if buys then f.executedBuy * b else f.executedBuy * q;
    || f.executedSell > i.sellAmount || (f.executedSell < i.sellAmount && !i.Partial()) || f.executedBuy == 0
    || f.executedBuy * i.sellAmount < i.minBuyAmount * f.executedSell
    || valueOut > valueIn || (valueIn - valueOut) * BPS > valueIn * FEE_CAP_NOTIONAL_BPS
  }

  /** Candidate n is given something and the fill breaks its intent. */
  ghost predicate Refused(live: seq<Candidate>, m: Allot, n: nat, q: nat, b: nat)
    requires n < |live|
  {
    var c := live[n];
    Get(m, c.index) > 0 && exists f :: FillIs(c, Get(m, c.index), q, b, f) && Breaks(c.intent, f, c.buys, q, b)
  }

  /** One pass: the first candidate refused is taken out. */
  ghost predicate TakesOut(live: seq<Candidate>, next: seq<Candidate>, venueBase: nat, q: nat, b: nat)
  {
    exists m: Allot, n: nat :: Allotted(live, venueBase, m) && n < |live| && Refused(live, m, n, q, b)
      && (forall k :: 0 <= k < n ==> !Refused(live, m, k, q, b)) && next == live[..n] + live[n + 1..]
  }

  /** The fills are those of everyone given something, once each. */
  ghost predicate FillsAre(live: seq<Candidate>, m: Allot, q: nat, b: nat, fills: seq<Fill>)
  {
    && DistinctFills(fills)
    && (forall k :: 0 <= k < |live| && Get(m, live[k].index) > 0 ==>
          exists f :: f in fills && FillIs(live[k], Get(m, live[k].index), q, b, f))
    && (forall f :: f in fills ==> exists k :: 0 <= k < |live| && FillIsOf(live, m, k, q, b, f))
  }

  predicate FillIsOf(live: seq<Candidate>, m: Allot, k: nat, q: nat, b: nat, f: Fill)
    requires k < |live|
  {
    Get(m, live[k].index) > 0 && FillIs(live[k], Get(m, live[k].index), q, b, f)
  }

  // ----- one pass

  lemma AllotmentsAre(live: seq<Candidate>, venueBase: nat)
    requires DistinctIndices(live)
    ensures Allotted(live, venueBase, Allotments(live, venueBase))
  {
    hide Ration, Filter, GivenTo, Full, SumBy, DistinctIndices;
    var buyers, sellers := Filter(live, Buys()), Filter(live, Sells());
    FilterDistinct(live, Buys());
    FilterDistinct(live, Sells());
    SidesApart(live);
    if SizeTotal(buyers) > SizeTotal(sellers) {
      GivenIs(sellers, buyers, venueBase);
    } else {
      GivenIs(buyers, sellers, venueBase);
    }
  }

  lemma GivenIs(short: seq<Candidate>, long: seq<Candidate>, venueBase: nat)
    requires DistinctIndices(short) && DistinctIndices(long)
    requires forall c, d :: c in short && d in long ==> c.index != d.index
    ensures GivenTo(short, long, venueBase, Full(short).allot + Ration(long, SizeTotal(short) + venueBase))
  {
    hide Ration, Full, RationShape, SideGiven;
    FullFacts(short);
    FullKeys(short);
    var cap := SizeTotal(short) + venueBase;
    RationKeys(long, cap);
    MergedGets(short, long, Full(short).allot, Ration(long, cap));
    RationExactly(long, cap);
    SameSide(long, cap, Ration(long, cap), Full(short).allot + Ration(long, cap));
  }

  lemma RationKeys(side: seq<Candidate>, cap: nat)
    requires DistinctIndices(side)
    ensures Ration(side, cap).Keys <= Indices(side)
  {
    hide Ration;
    RationFacts(side, cap);
  }

  lemma FillOfIs(c: Candidate, a: nat, q: nat, b: nat)
    requires q > 0 && a > 0
    ensures FillIs(c, a, q, b, FillOf(c, a, q, b))
  {
    CeilingDiv(a * b, q, 0);
    FloorDiv(a * b, q, 0);
    Spread(CeilDiv(a * b, q), -1, q);
    Spread(a * b / q, 1, q);
  }

  lemma FillIsOne(c: Candidate, a: nat, q: nat, b: nat, f: Fill, g: Fill)
    requires q > 0 && FillIs(c, a, q, b, f) && FillIs(c, a, q, b, g)
    ensures f == g
  {
    if c.buys && a != c.size {
      MulCancel(f.executedSell, g.executedSell - 1, q);
      MulCancel(g.executedSell, f.executedSell - 1, q);
    } else if !c.buys {
      MulCancel(f.executedBuy + 1, g.executedBuy, q);
      MulCancel(g.executedBuy + 1, f.executedBuy, q);
    }
  }

  lemma RefusalIs(i: Intent, f: Fill, buys: bool, q: nat, b: nat)
    ensures Refusal(i, f, buys, q, b).Some? <==> Breaks(i, f, buys, q, b)
  {
  }

  lemma RefusedIs(live: seq<Candidate>, m: Allot, n: nat, q: nat, b: nat)
    requires q > 0 && n < |live|
    ensures Refused(live, m, n, q, b) <==> RefusalOf(live[n], m, q, b).Some?
  {
    hide FillOf, Refusal, Breaks, FillIs;
    var c := live[n];
    var a := Get(m, c.index);
    if a > 0 {
      var own := FillOf(c, a, q, b);
      FillOfIs(c, a, q, b);
      RefusalIs(c.intent, own, c.buys, q, b);
      forall f | FillIs(c, a, q, b, f) ensures f == own {
        FillIsOne(c, a, q, b, f, own);
      }
    }
  }

  lemma {:induction false} FirstBadAt(live: seq<Candidate>, m: Allot, q: nat, b: nat) returns (n: nat)
    requires q > 0 && FirstBad(live, m, q, b).Some?
    ensures n < |live| && FirstBad(live, m, q, b) == Some(live[n]) && Refused(live, m, n, q, b)
    ensures forall k :: 0 <= k < n ==> !Refused(live, m, k, q, b)
  {
    hide RefusalOf, Refused;
    var last := |live| - 1;
    if FirstBad(live[..last], m, q, b).Some? {
      n := FirstBadAt(live[..last], m, q, b);
      SameRefused(live, n, m, q, b);
      forall k | 0 <= k < n ensures !Refused(live, m, k, q, b) {
        SameRefused(live, k, m, q, b);
      }
    } else {
      n := last;
      RefusedIs(live, m, n, q, b);
      forall k | 0 <= k < n ensures !Refused(live, m, k, q, b) {
        assert live[k] in live[..last];
        RefusedIs(live, m, k, q, b);
      }
    }
  }

  lemma SameRefused(live: seq<Candidate>, k: nat, m: Allot, q: nat, b: nat)
    requires k < |live| - 1
    ensures Refused(live[..|live| - 1], m, k, q, b) == Refused(live, m, k, q, b)
  {
    hide FillIs, Breaks;
  }

  lemma {:induction false} DropAt(live: seq<Candidate>, n: nat)
    requires DistinctIndices(live) && n < |live|
    ensures Drop(live, live[n].index) == live[..n] + live[n + 1..]
  {
    var p := OtherThan(live[n].index);
    assert live == live[..n] + [live[n]] + live[n + 1..];
    FilterAppend(live[..n] + [live[n]], live[n + 1..], p);
    FilterAppend(live[..n], [live[n]], p);
    FilterAll(live[..n], p);
    FilterAll(live[n + 1..], p);
    FilterNone([live[n]], p);
  }

  // ----- the passes

  ghost predicate Run(passes: seq<seq<Candidate>>, venueBase: nat, q: nat, b: nat)
  {
    passes != [] && forall k :: 0 <= k < |passes| - 1 ==> TakesOut(passes[k], passes[k + 1], venueBase, q, b)
  }

  lemma {:induction false} SettleRuns(live: seq<Candidate>, excluded: seq<Exclusion>, q: nat, b: nat, venueBase: nat)
      returns (passes: seq<seq<Candidate>>)
    requires q > 0 && DistinctIndices(live)
    ensures Run(passes, venueBase, q, b) && passes[0] == live
    ensures passes[|passes| - 1] == SettleFrom(live, excluded, q, b, venueBase).live
    decreases |live|
  {
    hide Allotments, FirstBad, RefusalOf, Refused, TakesOut, Allotted;
    var m := Allotments(live, venueBase);
    passes := [live];
    if FirstBad(live, m, q, b).Some? {
      var bad := FirstBad(live, m, q, b).value;
      FilterShorter(live, OtherThan(bad.index), bad);
      FilterDistinct(live, OtherThan(bad.index));
      TakesOutBad(live, venueBase, q, b);
      var rest := SettleRuns(Drop(live, bad.index), excluded + [Exclusion(bad.index, RefusalOf(bad, m, q, b).value)], q,
        b, venueBase);
      passes := [live] + rest;
    }
  }

  lemma TakesOutBad(live: seq<Candidate>, venueBase: nat, q: nat, b: nat)
    requires q > 0 && DistinctIndices(live)
    requires FirstBad(live, Allotments(live, venueBase), q, b).Some?
    ensures TakesOut(live, Drop(live, FirstBad(live, Allotments(live, venueBase), q, b).value.index), venueBase, q, b)
  {
    hide Allotments, FirstBad, Refused, Allotted, Drop;
    AllotmentsAre(live, venueBase);
    var n := FirstBadAt(live, Allotments(live, venueBase), q, b);
    DropAt(live, n);
  }

  /** Whoever is given something has its fill listed. */
  lemma FillListed(live: seq<Candidate>, m: Allot, quote: Address, q: nat, b: nat, k: nat) returns (f: Fill)
    requires q > 0 && b > 0 && k < |live| && WellMade(live[k], quote, q, b) && Get(m, live[k].index) > 0
    ensures f in Fills(live, m, q, b) && FillIs(live[k], Get(m, live[k].index), q, b, f)
  {
    hide FillOf, FillIs, WellMade;
    var c := live[k];
    FillOfIs(c, Get(m, c.index), q, b);
    SoldIffAllotted(c, Get(m, c.index), quote, q, b);
    f := FillFor(m, q, b)(c);
    assert Map(live, FillFor(m, q, b))[k] == f && Sold()(f);
  }

  /** And every fill listed is somebody's. */
  lemma ListedFill(live: seq<Candidate>, m: Allot, quote: Address, q: nat, b: nat, f: Fill) returns (k: nat)
    requires q > 0 && b > 0 && f in Fills(live, m, q, b) && forall c :: c in live ==> WellMade(c, quote, q, b)
    ensures k < |live| && Get(m, live[k].index) > 0 && FillIs(live[k], Get(m, live[k].index), q, b, f)
  {
    hide FillOf, FillIs, WellMade;
    k :| 0 <= k < |live| && FillFor(m, q, b)(live[k]) == f;
    var c := live[k];
    assert c in live && Sold()(f);
    SoldIffAllotted(c, Get(m, c.index), quote, q, b);
    FillOfIs(c, Get(m, c.index), q, b);
  }

  lemma FillsAreThose(live: seq<Candidate>, m: Allot, quote: Address, q: nat, b: nat)
    requires q > 0 && b > 0 && DistinctIndices(live)
    requires forall c :: c in live ==> WellMade(c, quote, q, b)
    ensures FillsAre(live, m, q, b, Fills(live, m, q, b))
  {
    hide FillIs, WellMade, Fills;
    FillsDistinct(live, m, q, b);
    var fills := Fills(live, m, q, b);
    forall k: nat | k < |live| && Get(m, live[k].index) > 0
      ensures exists f :: f in fills && FillIs(live[k], Get(m, live[k].index), q, b, f)
    {
      assert live[k] in live;
      var f := FillListed(live, m, quote, q, b, k);
    }
    forall f | f in fills ensures exists k :: 0 <= k < |live| && FillIsOf(live, m, k, q, b, f) {
      var k := ListedFill(live, m, quote, q, b, f);
      assert FillIsOf(live, m, k, q, b, f);
    }
  }

  /** An allocation is what the passes from those who take part settle on: each takes out the first candidate whose fill
      would break its intent, the last refuses none, and its fills are those of everyone it gives something to. With a
      base unit price of zero there are none. */
  lemma AllocateExactly(pair: Pair, price: nat, ref: Reference, venueBase: nat)
      returns (passes: seq<seq<Candidate>>, m: Allot)
    requires ref.quotePrice > 0 && DistinctEntries(pair.entries)
    ensures var a, q, b := Allocate(pair, price, ref, venueBase), ref.quotePrice, price * ref.quotePrice / WAD;
      && a.basePrice == b
      && (b == 0 ==> a.fills == [])
      && (b > 0 ==>
            && Run(passes, venueBase, q, b)
            && SpeakForAll(passes[0], Filter(pair.entries, TakesPart(pair.quote, price, q, b)), pair.quote, price, q, b)
            && var live := passes[|passes| - 1];
               && Allotted(live, venueBase, m) && (forall n :: 0 <= n < |live| ==> !Refused(live, m, n, q, b))
               && FillsAre(live, m, q, b, a.fills))
  {
    hide Allotments, Accepted, Rejected, Fills, FillsAre, Refused, Allotted, Filter, TakesPart, SpeakForAll, Run,
      SettleFrom, WellMade, FirstBad;
    var q, b := ref.quotePrice, UnitPrice(price, ref);
    passes, m := [], map[];
    if b > 0 {
      AcceptedFacts(pair.entries, pair.quote, price, q, b);
      AcceptedSpeak(pair.entries, pair.quote, price, q, b);
      var live := Accepted(pair.entries, pair.quote, price, q, b);
      passes := SettleRuns(live, Rejected(pair.entries, pair.quote, price, q, b), q, b, venueBase);
      FinalFacts(pair, price, q, b, venueBase);
      var final := Final(pair, price, q, b, venueBase).live;
      m := Allotments(final, venueBase);
      AllotmentsAre(final, venueBase);
      NoneRefused(final, m, q, b);
      FillsAreThose(final, m, pair.quote, q, b);
    }
  }

  lemma NoneRefused(live: seq<Candidate>, m: Allot, q: nat, b: nat)
    requires q > 0 && FirstBad(live, m, q, b).None?
    ensures forall n :: 0 <= n < |live| ==> !Refused(live, m, n, q, b)
  {
    hide Refused, RefusalOf;
    forall n | 0 <= n < |live| ensures !Refused(live, m, n, q, b) {
      assert live[n] in live;
      RefusedIs(live, m, n, q, b);
    }
  }
}
