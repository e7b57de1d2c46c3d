/** Sharing one side's capacity between its intents (solver/src/clearing.ts, `ration`). */
module Rationing {
  import opened Common
  import opened Sorting
  import opened Solutions

  /** An intent that accepts the clearing price. `size` is the base it would trade if filled completely. */
  datatype Candidate = Candidate(index: nat, intent: Intent, buys: bool, size: nat, partial: bool, better: bool)

  type Allot = map<nat, nat>

  function Get(m: Allot, index: nat): nat { if index in m then m[index] else 0 }

  function SizeOf(): Candidate -> int { (c: Candidate) => c.size }
  function GetOf(m: Allot): Candidate -> int { (c: Candidate) => Get(m, c.index) }
  function IsBetter(): Candidate -> bool { (c: Candidate) => c.better }
  function IsAtPrice(): Candidate -> bool { (c: Candidate) => !c.better }
  function IsWhole(): Candidate -> bool { (c: Candidate) => !c.partial }
  function IsPartial(): Candidate -> bool { (c: Candidate) => c.partial }

  /** Smallest first, ties by index. */
  function BySize(): (Candidate, Candidate) -> bool
  {
    (a: Candidate, b: Candidate) => a.size < b.size || (a.size == b.size && a.index <= b.index)
  }

  predicate DistinctIndices(cs: seq<Candidate>)
  {
    forall j, k :: 0 <= j < k < |cs| ==> cs[j].index != cs[k].index
  }

  function Indices(cs: seq<Candidate>): set<nat>
  {
    if cs == [] then {} else Indices(cs[..|cs| - 1]) + {cs[|cs| - 1].index}
  }

  lemma {:induction false} IndicesHold(cs: seq<Candidate>, c: Candidate)
    requires c in cs
    ensures c.index in Indices(cs)
  {
    var init := cs[..|cs| - 1];
    if c != cs[|cs| - 1] {
      assert c in init;
      IndicesHold(init, c);
    }
  }

  lemma {:induction false} IndicesOnly(cs: seq<Candidate>, index: nat)
    requires index in Indices(cs)
    ensures exists c :: c in cs && c.index == index
  {
    var init, last := cs[..|cs| - 1], cs[|cs| - 1];
    if index == last.index {
      assert last in cs;
    } else {
      IndicesOnly(init, index);
      var c :| c in init && c.index == index;
      assert c in cs;
    }
  }

  /** Lists with no index in common have disjoint index sets. */
  lemma IndicesDisjoint(xs: seq<Candidate>, ys: seq<Candidate>)
    requires forall c, d :: c in xs && d in ys ==> c.index != d.index
    ensures Indices(xs) !! Indices(ys)
  {
    forall k | k in Indices(xs) ensures k !in Indices(ys) {
      IndicesOnly(xs, k);
      if k in Indices(ys) { IndicesOnly(ys, k); }
    }
  }

  lemma IndicesWider(part: seq<Candidate>, whole: seq<Candidate>)
    requires forall c :: c in part ==> c in whole
    ensures Indices(part) <= Indices(whole)
  {
    forall k | k in Indices(part) ensures k in Indices(whole) {
      IndicesOnly(part, k);
      var c :| c in part && c.index == k;
      IndicesHold(whole, c);
    }
  }

  // ----- the allotment, stage by stage

  /** An allotment under construction and the base units it uses. */
  datatype Tally = Tally(allot: Allot, used: nat)

  function Full(cs: seq<Candidate>): Tally
  {
    if cs == [] then Tally(map[], 0)
    else
      var t, c := Full(cs[..|cs| - 1]), cs[|cs| - 1];
      Tally(t.allot[c.index := c.size], t.used + c.size)
  }

  /** Whole-or-nothing intents, taken in the given order while they fit under the group's share. */
  function TakeWhole(whole: seq<Candidate>, share: nat): Tally
  {
    if whole == [] then Tally(map[], 0)
    else
      var t, c := TakeWhole(whole[..|whole| - 1], share), whole[|whole| - 1];
      var take := if t.used + c.size <= share then c.size else 0;
      Tally(t.allot[c.index := take], t.used + take)
  }

  /** The floored pro rata share of `rest`, never above the size. */
  function Share(c: Candidate, rest: nat, total: nat): nat
  {
    if total == 0 then 0 else Min(c.size * rest / total, c.size)
  }

  function ShareOf(rest: nat, total: nat): Candidate -> int { (c: Candidate) => Share(c, rest, total) }

  function ShareOut(split: seq<Candidate>, rest: nat, total: nat): Tally
  {
    if split == [] then Tally(map[], 0)
    else
      var t, c := ShareOut(split[..|split| - 1], rest, total), split[|split| - 1];
      Tally(t.allot[c.index := Share(c, rest, total)], t.used + Share(c, rest, total))
  }

  /** One intent takes what flooring left over, up to its own room. */
  function TopUpOne(c: Candidate, cap: nat, t: Tally): Tally
  {
    if t.used >= cap then t
    else
      var give := Min(c.size - Get(t.allot, c.index), cap - t.used);
      if give <= 0 then t else Tally(t.allot[c.index := Get(t.allot, c.index) + give], t.used + give)
  }

  function TopUp(split: seq<Candidate>, cap: nat, t: Tally): Tally
  {
    if split == [] then t else TopUpOne(split[|split| - 1], cap, TopUp(split[..|split| - 1], cap, t))
  }

  function WholeOf(tier: seq<Candidate>): seq<Candidate> { Sort(Filter(tier, IsWhole()), BySize()) }

  function SplitOf(tier: seq<Candidate>): seq<Candidate> { Filter(tier, IsPartial()) }

  function WholeShare(tier: seq<Candidate>, cap: nat): int
    requires SumBy(tier, SizeOf()) > 0
  {
    cap * SumBy(WholeOf(tier), SizeOf()) / SumBy(tier, SizeOf())
  }

  // ----- facts about the stages

  lemma SizesNonNegative(cs: seq<Candidate>)
    ensures SumBy(cs, SizeOf()) >= 0
  {
    SumByNonNegative(cs, SizeOf());
  }

  lemma {:induction false} FilterDistinct(cs: seq<Candidate>, p: Candidate -> bool)
    requires DistinctIndices(cs)
    ensures DistinctIndices(Filter(cs, p))
  {
    if cs != [] {
      var init, c := cs[..|cs| - 1], cs[|cs| - 1];
      FilterDistinct(init, p);
      forall k | 0 <= k < |Filter(init, p)| ensures Filter(init, p)[k].index != c.index {
        assert Filter(init, p)[k] in init;
      }
    }
  }

  /** An update at an index no listed candidate has leaves their sum alone. */
  lemma GetElsewhere(cs: seq<Candidate>, m: Allot, index: nat, v: nat)
    requires forall c :: c in cs ==> c.index != index
    ensures SumBy(cs, GetOf(m[index := v])) == SumBy(cs, GetOf(m))
  {
    SumByEq(cs, GetOf(m[index := v]), GetOf(m));
  }

  lemma {:induction false} FullFacts(cs: seq<Candidate>)
    requires DistinctIndices(cs)
    ensures var t := Full(cs);
      && t.used == SumBy(cs, SizeOf()) == SumBy(cs, GetOf(t.allot))
      && (forall c :: c in cs ==> Get(t.allot, c.index) == c.size)
      && t.allot.Keys <= Indices(cs)
  {
    if cs != [] {
      var init, c := cs[..|cs| - 1], cs[|cs| - 1];
      FullFacts(init);
      GetElsewhere(init, Full(init).allot, c.index, c.size);
      assert forall x :: x in cs <==> x in init || x == c;
    }
  }

  lemma {:induction false} TakeWholeUses(whole: seq<Candidate>, share: nat)
    ensures TakeWhole(whole, share).used <= share
  {
    if whole != [] {
      TakeWholeUses(whole[..|whole| - 1], share);
    }
  }

  lemma {:induction false} TakeWholeFacts(whole: seq<Candidate>, share: nat)
    requires DistinctIndices(whole)
    ensures var t := TakeWhole(whole, share);
      && t.used == SumBy(whole, GetOf(t.allot)) <= SumBy(whole, SizeOf())
      && (forall c :: c in whole ==> Get(t.allot, c.index) == 0 || Get(t.allot, c.index) == c.size)
      && t.allot.Keys <= Indices(whole)
  {
    if whole != [] {
      var init, c := whole[..|whole| - 1], whole[|whole| - 1];
      TakeWholeFacts(init, share);
      var t := TakeWhole(init, share);
      GetElsewhere(init, t.allot, c.index, if t.used + c.size <= share then c.size else 0);
      assert forall x :: x in whole <==> x in init || x == c;
    }
  }

  lemma {:induction false} ShareOutFacts(split: seq<Candidate>, rest: nat, total: nat)
    requires DistinctIndices(split)
    ensures var t := ShareOut(split, rest, total);
      && t.used == SumBy(split, GetOf(t.allot)) == SumBy(split, ShareOf(rest, total))
      && (forall c :: c in split ==> Get(t.allot, c.index) == Share(c, rest, total))
      && t.allot.Keys <= Indices(split)
  {
    if split != [] {
      var init, c := split[..|split| - 1], split[|split| - 1];
      ShareOutFacts(init, rest, total);
      GetElsewhere(init, ShareOut(init, rest, total).allot, c.index, Share(c, rest, total));
      assert forall x :: x in split <==> x in init || x == c;
    }
  }

  /** The group's share is within the capacity. */
  lemma WholeShareFits(tier: seq<Candidate>, cap: nat)
    requires SumBy(tier, SizeOf()) > cap
    ensures 0 <= WholeShare(tier, cap) <= cap
  {
    SumBySplit(tier, IsWhole(), IsPartial(), SizeOf());
    SortPermutes(Filter(tier, IsWhole()), BySize());
    SumByPermutation(WholeOf(tier), Filter(tier, IsWhole()), SizeOf());
    SizesNonNegative(SplitOf(tier));
    SizesNonNegative(WholeOf(tier));
    ProportionWithin(cap, SumBy(WholeOf(tier), SizeOf()), SumBy(tier, SizeOf()));
  }

  lemma ProportionWithin(cap: nat, part: int, total: int)
    requires 0 <= part <= total && total > 0
    ensures 0 <= cap * part / total <= cap
  {
    MulMono(part, total, cap);
    MulMono(0, part, cap);
    FloorDiv(cap * part, total, cap + 1);
    FloorDiv(cap * part, total, 0);
    assert (cap + 1) * total == cap * total + total;
  }

  lemma SameIndex(cs: seq<Candidate>, c: Candidate, d: Candidate)
    requires DistinctIndices(cs)
    requires c in cs && d in cs
    ensures c.index == d.index ==> c == d
  {
    var j :| 0 <= j < |cs| && cs[j] == c;
    var k :| 0 <= k < |cs| && cs[k] == d;
  }

  lemma LastIndexFresh(cs: seq<Candidate>)
    requires DistinctIndices(cs) && cs != []
    ensures cs[|cs| - 1].index !in Indices(cs[..|cs| - 1])
  {
    var init := cs[..|cs| - 1];
    if cs[|cs| - 1].index in Indices(init) { IndicesOnly(init, cs[|cs| - 1].index); }
  }

  lemma {:induction false} TopUpFacts(split: seq<Candidate>, cap: nat, t: Tally)
    requires DistinctIndices(split)
    requires t.used <= cap
    requires forall c :: c in split ==> Get(t.allot, c.index) <= c.size
    ensures var r := TopUp(split, cap, t);
      && t.used <= r.used <= cap
      && r.used - t.used == SumBy(split, GetOf(r.allot)) - SumBy(split, GetOf(t.allot))
      && (forall c :: c in split ==> Get(t.allot, c.index) <= Get(r.allot, c.index) <= c.size)
      && (r.used < cap ==> forall c :: c in split ==> Get(r.allot, c.index) == c.size)
      && (forall k :: k !in Indices(split) ==> Get(r.allot, k) == Get(t.allot, k))
      && r.allot.Keys <= t.allot.Keys + Indices(split)
  {
    if split != [] {
      var init, c := split[..|split| - 1], split[|split| - 1];
      TopUpFacts(init, cap, t);
      var before := TopUp(init, cap, t);
      assert forall x :: x in split <==> x in init || x == c;
      var after := TopUpOne(c, cap, before);
      LastIndexFresh(split);
      if after != before {
        GetElsewhere(init, before.allot, c.index, after.allot[c.index]);
        assert after.allot == before.allot[c.index := after.allot[c.index]];
      }
    }
  }

  /** What a tier's allotment `t` over capacity `cap` satisfies. */
  ghost predicate TierShape(tier: seq<Candidate>, cap: nat, t: Tally)
  {
    && t.used == SumBy(tier, GetOf(t.allot)) <= cap
    && (forall c :: c in tier ==> Get(t.allot, c.index) <= c.size)
    && (forall c :: c in tier && !c.partial ==> Get(t.allot, c.index) == 0 || Get(t.allot, c.index) == c.size)
    && (t.used < cap ==> forall c :: c in tier && c.partial ==> Get(t.allot, c.index) == c.size)
    && t.allot.Keys <= Indices(tier)
  }

  lemma WholeOfMembers(tier: seq<Candidate>)
    requires DistinctIndices(tier)
    ensures DistinctIndices(WholeOf(tier)) && DistinctIndices(SplitOf(tier))
    ensures forall c :: c in WholeOf(tier) <==> c in tier && !c.partial
    ensures forall c :: c in SplitOf(tier) <==> c in tier && c.partial
    ensures multiset(WholeOf(tier)) == multiset(Filter(tier, IsWhole()))
    ensures forall c, d :: c in WholeOf(tier) && d in SplitOf(tier) ==> c.index != d.index
  {
    FilterDistinct(tier, IsWhole());
    FilterDistinct(tier, IsPartial());
    SortPermutes(Filter(tier, IsWhole()), BySize());
    DistinctIndicesPermute(Filter(tier, IsWhole()), WholeOf(tier));
    forall c, d | c in WholeOf(tier) && d in SplitOf(tier) ensures c.index != d.index {
      SameIndex(tier, c, d);
    }
  }

  lemma DistinctIndicesPermute(xs: seq<Candidate>, ys: seq<Candidate>)
    requires multiset(xs) == multiset(ys)
    requires DistinctIndices(xs)
    ensures DistinctIndices(ys)
  {
    DistinctPermutes(xs, ys);
    forall j, k | 0 <= j < k < |ys| ensures ys[j].index != ys[k].index {
      assert ys[j] in multiset(ys) && ys[k] in multiset(ys);
      assert ys[j] in xs && ys[k] in xs;
      SameIndex(xs, ys[j], ys[k]);
    }
  }

  /** The sums over a tier are the sums over its whole and its partial part. */
  lemma TierSplit(tier: seq<Candidate>, f: Candidate -> int)
    requires DistinctIndices(tier)
    ensures SumBy(tier, f) == SumBy(WholeOf(tier), f) + SumBy(SplitOf(tier), f)
  {
    WholeOfMembers(tier);
    SumBySplit(tier, IsWhole(), IsPartial(), f);
    SumByPermutation(WholeOf(tier), Filter(tier, IsWhole()), f);
  }

  lemma OneShare(c: Candidate, rest: nat, total: nat)
    requires total > 0
    ensures Share(c, rest, total) * total <= c.size * rest
    ensures rest <= total ==> c.size * rest < Share(c, rest, total) * total + total
  {
    var exact := c.size * rest / total;
    FloorDiv(c.size * rest, total, exact);
    MulMono(Share(c, rest, total), exact, total);
    if rest <= total {
      MulMono(rest, total, c.size);
      FloorDiv(c.size * rest, total, c.size + 1);
      assert (c.size + 1) * total == c.size * total + total;
    }
  }

  /** The floored shares do not exceed what is left, and fall short of it by less than one unit each. */
  lemma {:induction false} SharesFit(split: seq<Candidate>, rest: nat, total: nat)
    requires total > 0
    ensures SumBy(split, ShareOf(rest, total)) * total <= SumBy(split, SizeOf()) * rest
    ensures rest <= total && split != [] ==>
      SumBy(split, SizeOf()) * rest < SumBy(split, ShareOf(rest, total)) * total + |split| * total
  {
    if split != [] {
      var init, c := split[..|split| - 1], split[|split| - 1];
      SharesFit(init, rest, total);
      OneShare(c, rest, total);
      Spread(SumBy(init, ShareOf(rest, total)), Share(c, rest, total), total);
      Spread(SumBy(init, SizeOf()), c.size, rest);
      Spread(|init|, 1, total);
      assert init == [] ==> SumBy(init, SizeOf()) * rest == 0 && SumBy(init, ShareOf(rest, total)) * total == 0;
    }
  }

  // ----- the whole rule

  lemma SharesWithin(split: seq<Candidate>, rest: nat, total: nat)
    requires total == SumBy(split, SizeOf())
    ensures SumBy(split, ShareOf(rest, total)) <= rest
    ensures rest <= total && split != [] && total > 0 ==> rest < SumBy(split, ShareOf(rest, total)) + |split|
  {
    if total == 0 {
      SumByBound(split, ShareOf(rest, total), 0);
    } else {
      SharesFit(split, rest, total);
      MulCancel(SumBy(split, ShareOf(rest, total)), rest, total);
      if rest <= total && split != [] {
        assert (SumBy(split, ShareOf(rest, total)) + |split|) * total == SumBy(split, ShareOf(rest, total)) * total +
          |split| * total;
        MulCancel(rest, SumBy(split, ShareOf(rest, total)) + |split|, total);
      }
    }
  }

  function SizeTotal(cs: seq<Candidate>): nat
  {
    SizesNonNegative(cs);
    SumBy(cs, SizeOf())
  }

  /** What the whole-or-nothing intents leave for the partial ones. */
  function Left(whole: seq<Candidate>, cap: nat, share: nat): nat
    requires share <= cap
  {
    TakeWholeUses(whole, share);
    cap - TakeWhole(whole, share).used
  }

  /** The tally the top-up starts from. */
  function Start(whole: seq<Candidate>, split: seq<Candidate>, cap: nat, share: nat): Tally
    requires share <= cap
  {
    var w, s := TakeWhole(whole, share), ShareOut(split, Left(whole, cap, share), SizeTotal(split));
    Tally(w.allot + s.allot, w.used + s.used)
  }

  /** A tier larger than its capacity: whole intents first, then the partial ones pro rata, then the leftover units. */
  function RationedTier(tier: seq<Candidate>, cap: nat): Tally
    requires SumBy(tier, SizeOf()) > cap
  {
    WholeShareFits(tier, cap);
    TopUp(SplitOf(tier), cap, Start(WholeOf(tier), SplitOf(tier), cap, WholeShare(tier, cap)))
  }

  function Tier(tier: seq<Candidate>, cap: nat): Tally
  {
    if SumBy(tier, SizeOf()) <= cap then Full(tier) else RationedTier(tier, cap)
  }

  lemma TierUses(tier: seq<Candidate>, cap: nat)
    requires DistinctIndices(tier)
    ensures Tier(tier, cap).used <= cap
  {
    TierFacts(tier, cap);
  }

  /** The first tier, then the second with what the first left. */
  function TwoTiers(upper: seq<Candidate>, lower: seq<Candidate>, cap: nat): Allot
    requires DistinctIndices(upper)
  {
    TierUses(upper, cap);
    Tier(upper, cap).allot + Tier(lower, cap - Tier(upper, cap).used).allot
  }

  /** Strictly better intents first; what they leave goes to those exactly at the price. */
  function Ration(side: seq<Candidate>, cap: nat): Allot
    requires DistinctIndices(side)
  {
    FilterDistinct(side, IsBetter());
    TwoTiers(Filter(side, IsBetter()), Filter(side, IsAtPrice()), cap)
  }

  /** Allotments over two groups with no index in common do not disturb each other. */
  lemma MergedGets(whole: seq<Candidate>, split: seq<Candidate>, a: Allot, b: Allot)
    requires forall c, d :: c in whole && d in split ==> c.index != d.index
    requires a.Keys <= Indices(whole)
    requires b.Keys <= Indices(split)
    ensures forall c :: c in whole ==> Get(a + b, c.index) == Get(a, c.index)
    ensures forall c :: c in split ==> Get(a + b, c.index) == Get(b, c.index)
    ensures SumBy(whole, GetOf(a + b)) == SumBy(whole, GetOf(a))
    ensures SumBy(split, GetOf(a + b)) == SumBy(split, GetOf(b))
  {
    IndicesDisjoint(whole, split);
    forall c | c in whole ensures Get(a + b, c.index) == Get(a, c.index) {
      IndicesHold(whole, c);
    }
    forall c | c in split ensures Get(a + b, c.index) == Get(b, c.index) {
      IndicesHold(split, c);
    }
    SumByEq(whole, GetOf(a + b), GetOf(a));
    SumByEq(split, GetOf(a + b), GetOf(b));
  }

  /** Two groups that can be allotted side by side. */
  predicate Apart(whole: seq<Candidate>, split: seq<Candidate>)
  {
    && DistinctIndices(whole) && DistinctIndices(split)
    && forall c, d :: c in whole && d in split ==> c.index != d.index
  }

  /** Before the leftover units go out: within capacity, and each partial at its floored share. */
  lemma StartFacts(whole: seq<Candidate>, split: seq<Candidate>, cap: nat, share: nat)
    requires Apart(whole, split)
    requires share <= cap
    ensures var t, rest := Start(whole, split, cap, share), Left(whole, cap, share);
      && t.used == SumBy(whole, GetOf(t.allot)) + SumBy(split, GetOf(t.allot)) <= cap
      && (forall c :: c in whole ==> Get(t.allot, c.index) == 0 || Get(t.allot, c.index) == c.size)
      && (forall c :: c in split ==> Get(t.allot, c.index) == Share(c, rest, SizeTotal(split)))
      && t.allot.Keys <= Indices(whole) + Indices(split)
      && (rest <= SizeTotal(split) && split != [] && SizeTotal(split) > 0 ==> cap < t.used + |split|)
  {
    var w, rest := TakeWhole(whole, share), Left(whole, cap, share);
    var total := SizeTotal(split);
    var s := ShareOut(split, rest, total);
    TakeWholeFacts(whole, share);
    ShareOutFacts(split, rest, total);
    MergedGets(whole, split, w.allot, s.allot);
    SharesWithin(split, rest, total);
  }

  /** What the allotment `t` of two groups over capacity `cap` satisfies. */
  ghost predicate Shape(whole: seq<Candidate>, split: seq<Candidate>, cap: nat, t: Tally)
  {
    && t.used == SumBy(whole, GetOf(t.allot)) + SumBy(split, GetOf(t.allot)) <= cap
    && (forall c :: c in whole ==> Get(t.allot, c.index) == 0 || Get(t.allot, c.index) == c.size)
    && (forall c :: c in split ==> Get(t.allot, c.index) <= c.size)
    && (t.used < cap ==> forall c :: c in split ==> Get(t.allot, c.index) == c.size)
    && t.allot.Keys <= Indices(whole) + Indices(split)
  }

  lemma TopUpShape(whole: seq<Candidate>, split: seq<Candidate>, cap: nat, start: Tally)
    requires Apart(whole, split)
    requires start.used == SumBy(whole, GetOf(start.allot)) + SumBy(split, GetOf(start.allot)) <= cap
    requires forall c :: c in whole ==> Get(start.allot, c.index) == 0 || Get(start.allot, c.index) == c.size
    requires forall c :: c in split ==> Get(start.allot, c.index) <= c.size
    requires start.allot.Keys <= Indices(whole) + Indices(split)
    ensures Shape(whole, split, cap, TopUp(split, cap, start))
  {
    TopUpFacts(split, cap, start);
    var t := TopUp(split, cap, start);
    IndicesDisjoint(whole, split);
    forall c | c in whole ensures Get(t.allot, c.index) == Get(start.allot, c.index) {
      IndicesHold(whole, c);
    }
    SumByEq(whole, GetOf(t.allot), GetOf(start.allot));
  }

  lemma FinishShape(whole: seq<Candidate>, split: seq<Candidate>, cap: nat, share: nat)
    requires Apart(whole, split)
    requires share <= cap
    ensures Shape(whole, split, cap, TopUp(split, cap, Start(whole, split, cap, share)))
  {
    StartFacts(whole, split, cap, share);
    TopUpShape(whole, split, cap, Start(whole, split, cap, share));
  }

  /** A tier never exceeds its capacity, fills whole intents completely or not at all, and leaves capacity unused only
      when every partial intent is full. */
  lemma TierFacts(tier: seq<Candidate>, cap: nat)
    requires DistinctIndices(tier)
    ensures TierShape(tier, cap, Tier(tier, cap))
  {
    if SumBy(tier, SizeOf()) <= cap {
      FullFacts(tier);
    } else {
      WholeOfMembers(tier);
      WholeShareFits(tier, cap);
      var t := RationedTier(tier, cap);
      FinishShape(WholeOf(tier), SplitOf(tier), cap, WholeShare(tier, cap));
      ShapeOfTier(tier, WholeOf(tier), SplitOf(tier), cap, t);
    }
  }

  lemma ShapeOfTier(tier: seq<Candidate>, whole: seq<Candidate>, split: seq<Candidate>, cap: nat, t: Tally)
    requires DistinctIndices(tier)
    requires whole == WholeOf(tier) && split == SplitOf(tier)
    requires Shape(whole, split, cap, t)
    ensures TierShape(tier, cap, t)
  {
    WholeOfMembers(tier);
    TierSplit(tier, GetOf(t.allot));
    IndicesWider(whole, tier);
    IndicesWider(split, tier);
  }

  // ----- what a side's allotment promises

  /** No side is given more than its capacity, nobody more than its size, whole intents all or nothing; capacity is
      left over only if every partial intent is full; and an intent exactly at the price gets something only if every
      strictly better partial intent is full. */
  lemma RationFacts(side: seq<Candidate>, cap: nat)
    requires DistinctIndices(side)
    ensures RationShape(side, cap, Ration(side, cap))
  {
    FilterDistinct(side, IsBetter());
    FilterDistinct(side, IsAtPrice());
    TwoTiersShape(side, Filter(side, IsBetter()), Filter(side, IsAtPrice()), cap);
  }

  ghost predicate RationShape(side: seq<Candidate>, cap: nat, m: Allot)
  {
    && 0 <= SumBy(side, GetOf(m)) <= cap
    && (forall c :: c in side ==> Get(m, c.index) <= c.size)
    && (forall c :: c in side && !c.partial ==> Get(m, c.index) == 0 || Get(m, c.index) == c.size)
    && (SumBy(side, GetOf(m)) < cap ==> forall c :: c in side && c.partial ==> Get(m, c.index) == c.size)
    && (forall c, d :: c in side && !c.better && Get(m, c.index) > 0 && d in side && d.better && d.partial ==>
      Get(m, d.index) == d.size)
    && m.Keys <= Indices(side)
  }

  lemma TwoTiersShape(side: seq<Candidate>, upper: seq<Candidate>, lower: seq<Candidate>, cap: nat)
    requires DistinctIndices(side) && DistinctIndices(upper) && DistinctIndices(lower)
    requires upper == Filter(side, IsBetter()) && lower == Filter(side, IsAtPrice())
    ensures RationShape(side, cap, TwoTiers(upper, lower, cap))
  {
    hide Tier, Filter, SumBy, TierShape, RationShape;
    TierUses(upper, cap);
    TierFacts(upper, cap);
    var first := Tier(upper, cap);
    TierFacts(lower, cap - first.used);
    MergedShape(side, upper, lower, cap, first, Tier(lower, cap - first.used));
  }

  lemma MergedShape(side: seq<Candidate>, upper: seq<Candidate>, lower: seq<Candidate>, cap: nat, first: Tally,
      second: Tally)
    requires DistinctIndices(side)
    requires upper == Filter(side, IsBetter()) && lower == Filter(side, IsAtPrice())
    requires TierShape(upper, cap, first) && TierShape(lower, cap - first.used, second)
    ensures RationShape(side, cap, first.allot + second.allot)
  {
    hide SumBy, Filter, Indices;
    CrossDistinct(side, upper, lower);
    MergedGets(upper, lower, first.allot, second.allot);
    var m := first.allot + second.allot;
    SumBySplit(side, IsBetter(), IsAtPrice(), GetOf(m));
    SumByNonNegative(side, GetOf(m));
    IndicesWider(upper, side);
    IndicesWider(lower, side);
    assert forall c :: c in side ==> c in upper || c in lower;
    forall c | c in lower && Get(m, c.index) > 0 ensures second.used > 0 {
      var k :| 0 <= k < |lower| && lower[k] == c;
      SumByTerm(lower, k, GetOf(second.allot));
    }
  }

  lemma CrossDistinct(side: seq<Candidate>, upper: seq<Candidate>, lower: seq<Candidate>)
    requires DistinctIndices(side)
    requires forall c :: c in upper ==> c in side && c.better
    requires forall c :: c in lower ==> c in side && !c.better
    ensures forall c, d :: c in upper && d in lower ==> c.index != d.index
  {
    forall c, d | c in upper && d in lower ensures c.index != d.index {
      SameIndex(side, c, d);
    }
  }

  /** A side of partial intents larger than its capacity is given exactly the capacity. */
  lemma RationExact(side: seq<Candidate>, cap: nat)
    requires DistinctIndices(side)
    requires forall c :: c in side ==> c.partial
    requires SumBy(side, SizeOf()) >= cap
    ensures SumBy(side, GetOf(Ration(side, cap))) == cap
  {
    RationFacts(side, cap);
    if SumBy(side, GetOf(Ration(side, cap))) < cap {
      SumByEq(side, GetOf(Ration(side, cap)), SizeOf());
    }
  }

  /** In a rationed tier each partial intent gets at least its floored pro rata share, and the units handed out beyond
      those shares are fewer than the intents sharing them. */
  lemma RationedTierIsFair(tier: seq<Candidate>, cap: nat)
    requires DistinctIndices(tier)
    requires SumBy(tier, SizeOf()) > cap
    requires SplitOf(tier) != []
    ensures 0 <= WholeShare(tier, cap) <= cap
    ensures var t, split, rest := RationedTier(tier, cap), SplitOf(tier),
      Left(WholeOf(tier), cap, WholeShare(tier, cap));
      && (forall c :: c in split ==> Share(c, rest, SizeTotal(split)) <= Get(t.allot, c.index))
      && SumBy(split, GetOf(t.allot)) < SumBy(split, ShareOf(rest, SizeTotal(split))) + |split|
  {
    WholeShareFits(tier, cap);
    WholeOfMembers(tier);
    TopUpIsFair(WholeOf(tier), SplitOf(tier), cap, WholeShare(tier, cap));
  }

  lemma TopUpIsFair(whole: seq<Candidate>, split: seq<Candidate>, cap: nat, share: nat)
    requires Apart(whole, split)
    requires share <= cap
    requires split != []
    ensures var t, rest := TopUp(split, cap, Start(whole, split, cap, share)), Left(whole, cap, share);
      && (forall c :: c in split ==> Share(c, rest, SizeTotal(split)) <= Get(t.allot, c.index))
      && SumBy(split, GetOf(t.allot)) < SumBy(split, ShareOf(rest, SizeTotal(split))) + |split|
  {
    StartFacts(whole, split, cap, share);
    var start, rest, total := Start(whole, split, cap, share), Left(whole, cap, share), SizeTotal(split);
    TopUpFacts(split, cap, start);
    var t := TopUp(split, cap, start);
    SumByEq(split, GetOf(start.allot), ShareOf(rest, total));
    if rest > total || total == 0 {
      forall c | c in split ensures GetOf(t.allot)(c) <= GetOf(start.allot)(c) {
        SharesFull(split, c, rest, total);
      }
      SumByLe(split, GetOf(t.allot), GetOf(start.allot));
    }
  }

  /** With more left than the partial intents could take, every share is the whole size. */
  lemma SharesFull(split: seq<Candidate>, c: Candidate, rest: nat, total: nat)
    requires c in split && total == SumBy(split, SizeOf())
    requires rest > total || total == 0
    ensures Share(c, rest, total) == c.size
  {
    var k :| 0 <= k < |split| && split[k] == c;
    SumByTerm(split, k, SizeOf());
    if total > 0 {
      MulMono(total, rest, c.size);
      FloorDiv(c.size * rest, total, c.size);
    }
  }

  /** Whole intents are taken smallest first: one is taken only if every smaller one is. */
  lemma WholeSmallestFirst(tier: seq<Candidate>, share: nat, c: Candidate, d: Candidate)
    requires DistinctIndices(tier)
    requires c in WholeOf(tier) && d in WholeOf(tier) && c.size < d.size
    requires Get(TakeWhole(WholeOf(tier), share).allot, d.index) == d.size
    ensures Get(TakeWhole(WholeOf(tier), share).allot, c.index) == c.size
  {
    var whole := WholeOf(tier);
    WholeOfMembers(tier);
    SizesAscend(tier);
    var j :| 0 <= j < |whole| && whole[j] == c;
    var k :| 0 <= k < |whole| && whole[k] == d;
    TakenInOrder(whole, share, j, k);
  }

  lemma SizesAscend(tier: seq<Candidate>)
    ensures forall j, k :: 0 <= j <= k < |WholeOf(tier)| ==> WholeOf(tier)[j].size <= WholeOf(tier)[k].size
  {
    SortSorts(Filter(tier, IsWhole()), BySize());
    var whole := WholeOf(tier);
    forall j, k | 0 <= j < k < |whole| ensures whole[j].size <= whole[k].size {
      assert BySize()(whole[j], whole[k]);
    }
  }

  lemma {:induction false} TakenInOrder(whole: seq<Candidate>, share: nat, j: nat, k: nat)
    requires DistinctIndices(whole)
    requires j < k < |whole| && whole[j].size <= whole[k].size && whole[k].size > 0
    requires Get(TakeWhole(whole, share).allot, whole[k].index) == whole[k].size
    ensures Get(TakeWhole(whole, share).allot, whole[j].index) == whole[j].size
    ensures TakeWhole(whole[..j], share).used + whole[j].size <= share
  {
    var init := whole[..|whole| - 1];
    if k < |init| {
      assert init[..j] == whole[..j];
      TakenInOrder(init, share, j, k);
    } else {
      assert init[..j] == whole[..j];
      UsedGrows(init, share, j);
      AtPosition(init, share, j);
    }
  }

  lemma {:induction false} UsedGrows(whole: seq<Candidate>, share: nat, j: nat)
    requires j <= |whole|
    ensures TakeWhole(whole[..j], share).used <= TakeWhole(whole, share).used
  {
    if j == |whole| {
      assert whole[..j] == whole;
    } else {
      assert whole[..|whole| - 1][..j] == whole[..j];
      UsedGrows(whole[..|whole| - 1], share, j);
    }
  }

  /** Position j is decided by what was used before it. */
  lemma {:induction false} AtPosition(whole: seq<Candidate>, share: nat, j: nat)
    requires DistinctIndices(whole)
    requires j < |whole|
    ensures Get(TakeWhole(whole, share).allot, whole[j].index) ==
      if TakeWhole(whole[..j], share).used + whole[j].size <= share then whole[j].size else 0
  {
    var init := whole[..|whole| - 1];
    if j < |init| {
      assert init[..j] == whole[..j];
      AtPosition(init, share, j);
    }
  }

  // ----- the loops

  method RationTierLoop(tier: seq<Candidate>, cap: nat) returns (t: Tally)
    requires DistinctIndices(tier)
    ensures t == Tier(tier, cap)
  {
    var total := SizeTotal(tier);
    if total <= cap {
      t := FillLoop(tier);
      return;
    }
    var whole, split := WholeOf(tier), SplitOf(tier);
    var wholeShare := cap * SizeTotal(whole) / total;
    WholeShareFits(tier, cap);
    WholeOfMembers(tier);
    StartFacts(whole, split, cap, wholeShare);
    t := StartLoop(whole, split, cap, wholeShare);
    t := TopUpLoop(split, cap, t);
  }

  method FillLoop(tier: seq<Candidate>) returns (t: Tally)
    ensures t == Full(tier)
  {
    t := Tally(map[], 0);
    for k := 0 to |tier|
      invariant t == Full(tier[..k])
    {
      assert tier[..k + 1][..k] == tier[..k];
      t := Tally(t.allot[tier[k].index := tier[k].size], t.used + tier[k].size);
    }
    assert tier[..|tier|] == tier;
  }

  method StartLoop(whole: seq<Candidate>, split: seq<Candidate>, cap: nat, wholeShare: nat) returns (t: Tally)
    requires wholeShare <= cap
    ensures t == Start(whole, split, cap, wholeShare)
  {
    var allot: Allot := map[];
    var used: nat := 0;
    for k := 0 to |whole|
      invariant Tally(allot, used) == TakeWhole(whole[..k], wholeShare)
    {
      assert whole[..k + 1][..k] == whole[..k];
      var take := if used + whole[k].size <= wholeShare then whole[k].size else 0;
      allot := allot[whole[k].index := take];
      used := used + take;
    }
    assert whole[..|whole|] == whole;
    TakeWholeUses(whole, wholeShare);
    var rest := cap - used;
    var splitTotal := SizeTotal(split);
    ghost var taken := Tally(allot, used);
    for k := 0 to |split|
      invariant allot == taken.allot + ShareOut(split[..k], rest, splitTotal).allot
      invariant used == taken.used + ShareOut(split[..k], rest, splitTotal).used
    {
      assert split[..k + 1][..k] == split[..k];
      var take := Share(split[k], rest, splitTotal);
      allot := allot[split[k].index := take];
      used := used + take;
    }
    assert split[..|split|] == split;
    t := Tally(allot, used);
  }

  method TopUpLoop(split: seq<Candidate>, cap: nat, start: Tally) returns (t: Tally)
    ensures t == TopUp(split, cap, start)
  {
    t := start;
    var k := 0;
    while k < |split| && t.used < cap
      invariant 0 <= k <= |split|
      invariant t == TopUp(split[..k], cap, start)
    {
      hide TopUp;
      TopUpStep(split, cap, start, k);
      t := GiveMore(split[k], cap, t);
      k := k + 1;
    }
    TopUpStops(split, cap, start, k);
  }

  /** One candidate of the second pass. Nobody loses and nobody else gains, the capacity holds, and the candidate is
      left short of its size only because nothing is left to give. */
  method GiveMore(c: Candidate, cap: nat, t: Tally) returns (r: Tally)
    requires t.used < cap
    ensures t.used <= r.used <= cap
    ensures Get(r.allot, c.index) - Get(t.allot, c.index) == r.used - t.used
    ensures Get(t.allot, c.index) <= c.size ==> Get(r.allot, c.index) <= c.size
    ensures Get(r.allot, c.index) < c.size ==> r.used == cap
    ensures forall k :: k != c.index ==> Get(r.allot, k) == Get(t.allot, k)
    ensures r == TopUpOne(c, cap, t)
  {
    var has := Get(t.allot, c.index);
    var room := c.size - has;
    var give := if room < cap - t.used then room else cap - t.used;
    r := if give > 0 then Tally(t.allot[c.index := has + give], t.used + give) else t;
  }

  lemma TopUpStep(split: seq<Candidate>, cap: nat, start: Tally, k: nat)
    requires k < |split|
    ensures TopUp(split[..k + 1], cap, start) == TopUpOne(split[k], cap, TopUp(split[..k], cap, start))
  {
    assert split[..k + 1][..k] == split[..k];
    hide TopUpOne;
  }

  lemma {:induction false} TopUpStops(split: seq<Candidate>, cap: nat, start: Tally, k: nat)
    requires k <= |split|
    requires k < |split| ==> TopUp(split[..k], cap, start).used >= cap
    ensures TopUp(split, cap, start) == TopUp(split[..k], cap, start)
  {
    if k == |split| {
      assert split[..k] == split;
    } else {
      assert split[..|split| - 1][..k] == split[..k];
      TopUpStops(split[..|split| - 1], cap, start, k);
    }
  }

  method TwoTiersLoop(upper: seq<Candidate>, lower: seq<Candidate>, capacity: nat) returns (allot: Allot)
    requires DistinctIndices(upper) && DistinctIndices(lower)
    ensures allot == TwoTiers(upper, lower, capacity)
  {
    hide Tier;
    TierUses(upper, capacity);
    var first := RationTierLoop(upper, capacity);
    var second := RationTierLoop(lower, capacity - first.used);
    allot := first.allot + second.allot;
  }

  /** ration, tier by tier. */
  method RationLoop(side: seq<Candidate>, capacity: nat) returns (allot: Allot)
    requires DistinctIndices(side)
    ensures allot == Ration(side, capacity)
  {
    FilterDistinct(side, IsBetter());
    FilterDistinct(side, IsAtPrice());
    allot := TwoTiersLoop(Filter(side, IsBetter()), Filter(side, IsAtPrice()), capacity);
  }
}
