/** What rationing gives each intent of a side, in closed form (ration in solver/src/clearing.ts). */
module RationTerms {
  import opened Common
  import opened Rationing
  import opened Sorting

  /** The all-or-nothing intents up to this one: those smaller, and of its size those no later. */
  function UpTo(c: Candidate): Candidate -> int
  {
    (d: Candidate) =>
      if !d.partial && (d.size < c.size || (d.size == c.size && d.index <= c.index)) then d.size else 0
  }

  function WholeSize(): Candidate -> int { (d: Candidate) => if d.partial then 0 else d.size }

  /** It and all up to it fit in the part of the capacity that all such intents have by their size. */
  predicate FitsWhole(tier: seq<Candidate>, cap: nat, c: Candidate)
  {
    SumBy(tier, UpTo(c)) * SumBy(tier, SizeOf()) <= cap * SumBy(tier, WholeSize())
  }

  function TakenWhole(tier: seq<Candidate>, cap: nat): Candidate -> int
  {
    (c: Candidate) => if !c.partial && FitsWhole(tier, cap, c) then c.size else 0
  }

  /** A part of `rest` by size, rounded down, at most the size. */
  predicate PartIs(c: Candidate, rest: int, total: int, part: int)
  {
    0 <= part <= c.size && part * total <= c.size * rest && (part < c.size ==> c.size * rest < (part + 1) * total)
  }

  /** What a tier is given. If it fits, all of it. Otherwise an all-or-nothing intent is given all or nothing as it fits
      in their part of the capacity, and the partial ones share the rest by size, what rounding leaves going to the
      first with room: any number of them from the first on is given its parts and all that is left over, or its
      sizes. */
  ghost predicate TierGiven(tier: seq<Candidate>, cap: nat, m: Allot)
  {
    if SumBy(tier, SizeOf()) <= cap then forall c :: c in tier ==> Get(m, c.index) == c.size
    else
      var rest, split := cap - SumBy(tier, TakenWhole(tier, cap)), Filter(tier, IsPartial());
      && rest >= 0
      && (forall c :: c in tier && !c.partial ==> Get(m, c.index) == TakenWhole(tier, cap)(c))
      && PartsGiven(split, rest, m)
  }

  ghost predicate PartsGiven(split: seq<Candidate>, rest: int, m: Allot)
  {
    exists parts: Candidate -> int ::
      PartsAre(split, rest, parts) && forall n :: 0 <= n <= |split| ==> FirstGiven(split, rest, m, parts, n)
  }

  ghost predicate PartsAre(split: seq<Candidate>, rest: int, parts: Candidate -> int)
  {
    forall c :: c in split ==> PartIs(c, rest, SumBy(split, SizeOf()), parts(c))
  }

  /** What the first n of them are given together. */
  ghost predicate FirstGiven(split: seq<Candidate>, rest: int, m: Allot, parts: Candidate -> int, n: nat)
    requires n <= |split|
  {
    SumBy(split[..n], GetOf(m)) ==
      Min(SumBy(split[..n], SizeOf()), SumBy(split[..n], parts) + rest - SumBy(split, parts))
  }

  /** A side is given what its better tier is, and the other tier what that leaves. */
  ghost predicate SideGiven(side: seq<Candidate>, cap: nat, m: Allot)
  {
    var upper, lower := Filter(side, IsBetter()), Filter(side, IsAtPrice());
    && TierGiven(upper, cap, m)
    && SumBy(upper, GetOf(m)) <= cap && TierGiven(lower, cap - SumBy(upper, GetOf(m)), m)
  }

  // ----- the all-or-nothing intents

  lemma WholeSums(tier: seq<Candidate>, f: Candidate -> int)
    requires DistinctIndices(tier)
    requires forall c :: c in tier && c.partial ==> f(c) == 0
    ensures SumBy(tier, f) == SumBy(WholeOf(tier), f)
  {
    WholeOfMembers(tier);
    TierSplit(tier, f);
    hide Sort;
    SumByZero(SplitOf(tier), f);
  }

  lemma {:induction false} SumByZero(cs: seq<Candidate>, f: Candidate -> int)
    requires forall c :: c in cs ==> f(c) == 0
    ensures SumBy(cs, f) == 0
  {
    if cs != [] {
      SumByZero(cs[..|cs| - 1], f);
    }
  }

  /** The queue up to an intent is the sorted list up to its place. */
  lemma QueueIs(tier: seq<Candidate>, j: nat)
    requires DistinctIndices(tier) && j < |WholeOf(tier)|
    ensures SumBy(tier, UpTo(WholeOf(tier)[j])) == SumBy(WholeOf(tier)[..j + 1], SizeOf())
  {
    WholeOfMembers(tier);
    SortSorts(Filter(tier, IsWhole()), BySize());
    WholeSums(tier, UpTo(WholeOf(tier)[j]));
    hide SumBy, UpTo, Sorted, DistinctIndices, Sort, Insert, Filter;
    QueueSum(WholeOf(tier), j);
  }

  lemma QueueSum(whole: seq<Candidate>, j: nat)
    requires j < |whole| && Sorted(whole, BySize()) && DistinctIndices(whole) && forall d :: d in whole ==> !d.partial
    ensures SumBy(whole, UpTo(whole[j])) == SumBy(whole[..j + 1], SizeOf())
  {
    hide Sorted, DistinctIndices, UpTo;
    var f := UpTo(whole[j]);
    assert whole == whole[..j + 1] + whole[j + 1..];
    SumByAppend(whole[..j + 1], whole[j + 1..], f);
    forall c | c in whole[..j + 1] ensures f(c) == SizeOf()(c) {
      InQueue(whole, j, c);
    }
    forall c | c in whole[j + 1..] ensures f(c) == 0 {
      PastQueue(whole, j, c);
    }
    SumByEq(whole[..j + 1], f, SizeOf());
    SumByZero(whole[j + 1..], f);
  }

  lemma InQueue(whole: seq<Candidate>, j: nat, c: Candidate)
    requires j < |whole| && Sorted(whole, BySize()) && c in whole[..j + 1] && forall d :: d in whole ==> !d.partial
    ensures UpTo(whole[j])(c) == c.size
  {
    var k :| 0 <= k <= j && whole[k] == c;
    if k < j { assert BySize()(whole[k], whole[j]); }
  }

  lemma PastQueue(whole: seq<Candidate>, j: nat, c: Candidate)
    requires j < |whole| && Sorted(whole, BySize()) && DistinctIndices(whole) && c in whole[j + 1..]
    ensures UpTo(whole[j])(c) == 0
  {
    var k :| j + 1 <= k < |whole| && whole[k] == c;
    assert BySize()(whole[j], whole[k]);
  }

  /** One is taken exactly when all up to its place fit. */
  lemma {:induction false} TakenExactly(whole: seq<Candidate>, share: nat, j: nat)
    requires DistinctIndices(whole) && j < |whole|
    requires forall i, k :: 0 <= i <= k < |whole| ==> whole[i].size <= whole[k].size
    ensures Get(TakeWhole(whole, share).allot, whole[j].index) ==
      if SumBy(whole[..j + 1], SizeOf()) <= share then whole[j].size else 0
  {
    AtPosition(whole, share, j);
    UsedExactly(whole[..j], share);
    assert whole[..j + 1][..j] == whole[..j];
    hide TakeWhole;
    if SumBy(whole[..j], SizeOf()) > share {
      var i := Overflow(whole, share, j);
    }
  }

  /** The prefix that fits is taken whole. */
  lemma {:induction false} UsedExactly(whole: seq<Candidate>, share: nat)
    ensures SumBy(whole, SizeOf()) <= share ==> TakeWhole(whole, share).used == SumBy(whole, SizeOf())
  {
    if whole != [] {
      UsedExactly(whole[..|whole| - 1], share);
    }
  }

  /** Where the prefix no longer fits, an earlier intent no larger was refused. */
  lemma {:induction false} Overflow(whole: seq<Candidate>, share: nat, j: nat) returns (i: nat)
    requires j < |whole| && SumBy(whole[..j], SizeOf()) > share
    requires forall i, k :: 0 <= i <= k < |whole| ==> whole[i].size <= whole[k].size
    ensures i < j && TakeWhole(whole[..j], share).used + whole[i].size > share
    ensures TakeWhole(whole[..j], share).used + whole[j].size > share
  {
    var init := whole[..j - 1];
    assert whole[..j][..j - 1] == init;
    if SumBy(init, SizeOf()) > share {
      i := Overflow(whole, share, j - 1);
    } else {
      UsedExactly(init, share);
      i := j - 1;
    }
  }

  lemma WholeExactly(tier: seq<Candidate>, cap: nat, c: Candidate)
    requires DistinctIndices(tier) && SumBy(tier, SizeOf()) > cap && c in tier && !c.partial
    ensures 0 <= WholeShare(tier, cap)
    ensures Get(TakeWhole(WholeOf(tier), WholeShare(tier, cap)).allot, c.index) == TakenWhole(tier, cap)(c)
  {
    WholeShareFits(tier, cap);
    WholeOfMembers(tier);
    SizesAscend(tier);
    var whole := WholeOf(tier);
    assert c in whole;
    var j :| 0 <= j < |whole| && whole[j] == c;
    TakenExactly(whole, WholeShare(tier, cap), j);
    QueueIs(tier, j);
    WholeSums(tier, WholeSize());
    SumByEq(whole, WholeSize(), SizeOf());
    hide WholeOf, TakeWhole, SumBy, UpTo;
    FloorDiv(cap * SumBy(whole, SizeOf()), SumBy(tier, SizeOf()), SumBy(tier, UpTo(c)));
  }

  /** What the all-or-nothing intents leave. */
  lemma LeftIs(tier: seq<Candidate>, cap: nat)
    requires DistinctIndices(tier) && SumBy(tier, SizeOf()) > cap
    ensures 0 <= WholeShare(tier, cap) <= cap
    ensures Left(WholeOf(tier), cap, WholeShare(tier, cap)) == cap - SumBy(tier, TakenWhole(tier, cap))
  {
    WholeShareFits(tier, cap);
    WholeOfMembers(tier);
    var whole, t := WholeOf(tier), TakeWhole(WholeOf(tier), WholeShare(tier, cap));
    TakeWholeFacts(whole, WholeShare(tier, cap));
    WholeSums(tier, TakenWhole(tier, cap));
    forall c | c in whole ensures GetOf(t.allot)(c) == TakenWhole(tier, cap)(c) {
      WholeExactly(tier, cap, c);
    }
    hide WholeOf, TakeWhole, TakenWhole, FitsWhole;
    SumByEq(whole, GetOf(t.allot), TakenWhole(tier, cap));
  }

  // ----- the partial intents

  lemma PartIsShare(c: Candidate, rest: nat, split: seq<Candidate>)
    requires c in split
    ensures PartIs(c, rest, SumBy(split, SizeOf()), Share(c, rest, SizeTotal(split)))
  {
    var total := SizeTotal(split);
    var k :| 0 <= k < |split| && split[k] == c;
    SumByTerm(split, k, SizeOf());
    if total > 0 {
      FloorDiv(c.size * rest, total, c.size);
      FloorDiv(c.size * rest, total, 0);
      assert c.size * rest >= 0;
      var part := c.size * rest / total;
      Spread(part, 1, total);
      MulMono(Share(c, rest, total), part, total);
    }
  }

  /** Topping up the first few is unmoved by those after them. */
  lemma {:induction false} TopUpPrefix(split: seq<Candidate>, cap: nat, t: Tally, n: nat)
    requires DistinctIndices(split) && n <= |split| && t.used <= cap
    requires forall c :: c in split ==> Get(t.allot, c.index) <= c.size
    ensures forall c :: c in split[..n] ==>
      Get(TopUp(split, cap, t).allot, c.index) == Get(TopUp(split[..n], cap, t).allot, c.index)
  {
    if n == |split| {
      assert split[..n] == split;
    } else {
      var init, last := split[..|split| - 1], split[|split| - 1];
      assert init[..n] == split[..n];
      TopUpPrefix(init, cap, t, n);
      forall c | c in split[..n] ensures c.index != last.index {
        var k :| 0 <= k < n && split[k] == c;
      }
      hide TopUp;
      TopUpLast(init, last, cap, t, split);
    }
  }

  lemma TopUpLast(init: seq<Candidate>, last: Candidate, cap: nat, t: Tally, split: seq<Candidate>)
    requires split != [] && split[..|split| - 1] == init && split[|split| - 1] == last
    ensures forall index: nat :: index != last.index ==>
      Get(TopUp(split, cap, t).allot, index) == Get(TopUp(init, cap, t).allot, index)
  {
  }

  /** The first few partial intents together. */
  lemma PrefixGiven(split: seq<Candidate>, cap: nat, start: Tally, n: nat, parts: Candidate -> int)
    requires DistinctIndices(split) && n <= |split| && start.used <= cap
    requires forall c :: c in split ==> Get(start.allot, c.index) == parts(c) <= c.size
    ensures SumBy(split[..n], GetOf(TopUp(split, cap, start).allot)) ==
      Min(SumBy(split[..n], SizeOf()), SumBy(split[..n], parts) + cap - start.used)
  {
    hide TopUp, SumBy;
    var first := split[..n];
    assert forall c :: c in first ==> c in split;
    TopUpPrefix(split, cap, start, n);
    TopUpSum(first, cap, start);
    SumByEq(first, GetOf(TopUp(split, cap, start).allot), GetOf(TopUp(first, cap, start).allot));
    SumByEq(first, GetOf(start.allot), parts);
  }

  lemma TopUpSum(split: seq<Candidate>, cap: nat, start: Tally)
    requires DistinctIndices(split) && start.used <= cap
    requires forall c :: c in split ==> Get(start.allot, c.index) <= c.size
    ensures SumBy(split, GetOf(TopUp(split, cap, start).allot)) ==
      Min(SumBy(split, SizeOf()), SumBy(split, GetOf(start.allot)) + cap - start.used)
  {
    hide TopUp, SumBy;
    TopUpFacts(split, cap, start);
    var t := TopUp(split, cap, start);
    SumByLe(split, GetOf(t.allot), SizeOf());
    if t.used < cap { SumByEq(split, GetOf(t.allot), SizeOf()); }
  }

  // ----- a tier, a side

  lemma TierExactly(tier: seq<Candidate>, cap: nat)
    requires DistinctIndices(tier)
    ensures TierGiven(tier, cap, Tier(tier, cap).allot)
  {
    if SumBy(tier, SizeOf()) <= cap {
      FullFacts(tier);
    } else {
      RationedExactly(tier, cap);
    }
  }

  lemma RationedExactly(tier: seq<Candidate>, cap: nat)
    requires DistinctIndices(tier) && SumBy(tier, SizeOf()) > cap
    ensures TierGiven(tier, cap, RationedTier(tier, cap).allot)
  {
    hide WholeOf, TakeWhole, TakenWhole, TopUp, SumBy, Left, PartsGiven, WholeShare, Start;
    WholeShareFits(tier, cap);
    WholeOfMembers(tier);
    LeftIs(tier, cap);
    PartsExactly(WholeOf(tier), SplitOf(tier), cap, WholeShare(tier, cap));
    var m := RationedTier(tier, cap).allot;
    forall c | c in tier && !c.partial ensures Get(m, c.index) == TakenWhole(tier, cap)(c) {
      WholeExactly(tier, cap, c);
      WholeKept(WholeOf(tier), SplitOf(tier), cap, WholeShare(tier, cap), c);
    }
  }

  lemma PartsExactly(whole: seq<Candidate>, split: seq<Candidate>, cap: nat, share: nat)
    requires Apart(whole, split) && share <= cap
    ensures PartsGiven(split, Left(whole, cap, share), TopUp(split, cap, Start(whole, split, cap, share)).allot)
  {
    hide PartIs, TopUp, SumBy, Share, Left, Start, Apart;
    var rest, start := Left(whole, cap, share), Start(whole, split, cap, share);
    var parts := ShareOf(rest, SizeTotal(split));
    StartUses(whole, split, cap, share);
    StartGets(whole, split, cap, share);
    forall c | c in split ensures PartIs(c, rest, SumBy(split, SizeOf()), parts(c)) && parts(c) <= c.size {
      PartIsShare(c, rest, split);
      ShareAtMost(c, rest, SizeTotal(split));
    }
    assert PartsAre(split, rest, parts);
    var m := TopUp(split, cap, start).allot;
    forall n | 0 <= n <= |split| ensures FirstGiven(split, rest, m, parts, n) {
      PrefixGiven(split, cap, start, n, parts);
    }
  }

  lemma StartGets(whole: seq<Candidate>, split: seq<Candidate>, cap: nat, share: nat)
    requires Apart(whole, split) && share <= cap
    ensures DistinctIndices(split) && Start(whole, split, cap, share).used <= cap
    ensures forall c :: c in split ==>
      Get(Start(whole, split, cap, share).allot, c.index) == ShareOf(Left(whole, cap, share), SizeTotal(split))(c)
  {
    hide Start, Left, Share;
    StartFacts(whole, split, cap, share);
  }

  lemma ShareAtMost(c: Candidate, rest: nat, total: nat)
    ensures 0 <= ShareOf(rest, total)(c) == Share(c, rest, total) <= c.size
  {
  }

  lemma StartUses(whole: seq<Candidate>, split: seq<Candidate>, cap: nat, share: nat)
    requires Apart(whole, split) && share <= cap
    ensures cap - Start(whole, split, cap, share).used ==
      Left(whole, cap, share) - SumBy(split, ShareOf(Left(whole, cap, share), SizeTotal(split)))
  {
    ShareOutFacts(split, Left(whole, cap, share), SizeTotal(split));
  }

  /** The leftover units do not touch the all-or-nothing intents. */
  lemma WholeKept(whole: seq<Candidate>, split: seq<Candidate>, cap: nat, share: nat, c: Candidate)
    requires Apart(whole, split) && share <= cap && c in whole
    ensures Get(TopUp(split, cap, Start(whole, split, cap, share)).allot, c.index) ==
      Get(TakeWhole(whole, share).allot, c.index)
  {
    hide TopUp, SumBy, Share, Left, Indices;
    var start := Start(whole, split, cap, share);
    StartKeeps(whole, split, cap, share, c);
    StartGets(whole, split, cap, share);
    hide Start;
    forall d | d in split ensures Get(start.allot, d.index) <= d.size {
      ShareAtMost(d, Left(whole, cap, share), SizeTotal(split));
    }
    TopUpFacts(split, cap, start);
    IndicesHold(whole, c);
    IndicesDisjoint(whole, split);
  }

  lemma StartKeeps(whole: seq<Candidate>, split: seq<Candidate>, cap: nat, share: nat, c: Candidate)
    requires Apart(whole, split) && share <= cap && c in whole
    ensures Get(Start(whole, split, cap, share).allot, c.index) == Get(TakeWhole(whole, share).allot, c.index)
  {
    hide TakeWhole, ShareOut;
    var w, s := TakeWhole(whole, share), ShareOut(split, Left(whole, cap, share), SizeTotal(split));
    TakeWholeFacts(whole, share);
    ShareOutFacts(split, Left(whole, cap, share), SizeTotal(split));
    MergedGets(whole, split, w.allot, s.allot);
  }

  /** Rationing gives each intent exactly that. */
  lemma RationExactly(side: seq<Candidate>, cap: nat)
    requires DistinctIndices(side)
    ensures SideGiven(side, cap, Ration(side, cap))
  {
    hide Tier, TierGiven, SumBy, TierShape;
    FilterDistinct(side, IsBetter());
    FilterDistinct(side, IsAtPrice());
    var upper, lower := Filter(side, IsBetter()), Filter(side, IsAtPrice());
    TierUses(upper, cap);
    var first := Tier(upper, cap);
    var second := Tier(lower, cap - first.used);
    TierKeys(upper, cap);
    TierKeys(lower, cap - first.used);
    TierExactly(upper, cap);
    TierExactly(lower, cap - first.used);
    CrossDistinct(side, upper, lower);
    MergedGets(upper, lower, first.allot, second.allot);
    SameGiven(upper, cap, first.allot, Ration(side, cap));
    SameGiven(lower, cap - first.used, second.allot, Ration(side, cap));
    SumByEq(upper, GetOf(Ration(side, cap)), GetOf(first.allot));
  }

  lemma TierKeys(tier: seq<Candidate>, cap: nat)
    requires DistinctIndices(tier)
    ensures Tier(tier, cap).allot.Keys <= Indices(tier)
    ensures Tier(tier, cap).used == SumBy(tier, GetOf(Tier(tier, cap).allot)) <= cap
  {
    hide Tier;
    TierFacts(tier, cap);
  }

  /** It reads only what the tier's own intents are given. */
  lemma SameGiven(tier: seq<Candidate>, cap: nat, m: Allot, n: Allot)
    requires TierGiven(tier, cap, m) && forall c :: c in tier ==> Get(n, c.index) == Get(m, c.index)
    ensures TierGiven(tier, cap, n)
  {
    hide TakenWhole, PartsGiven;
    if SumBy(tier, SizeOf()) > cap {
      SameParts(Filter(tier, IsPartial()), cap - SumBy(tier, TakenWhole(tier, cap)), m, n);
    }
  }

  lemma SameSide(side: seq<Candidate>, cap: nat, m: Allot, n: Allot)
    requires SideGiven(side, cap, m) && forall c :: c in side ==> Get(n, c.index) == Get(m, c.index)
    ensures SideGiven(side, cap, n)
  {
    hide TierGiven, SumBy;
    var upper, lower := Filter(side, IsBetter()), Filter(side, IsAtPrice());
    SumByEq(upper, GetOf(n), GetOf(m));
    SameGiven(upper, cap, m, n);
    SameGiven(lower, cap - SumBy(upper, GetOf(m)), m, n);
  }

  lemma SameParts(split: seq<Candidate>, rest: int, m: Allot, n: Allot)
    requires PartsGiven(split, rest, m) && forall c :: c in split ==> Get(n, c.index) == Get(m, c.index)
    ensures PartsGiven(split, rest, n)
  {
    hide PartsAre, SumBy;
    var parts: Candidate -> int :|
      PartsAre(split, rest, parts) && forall k :: 0 <= k <= |split| ==> FirstGiven(split, rest, m, parts, k);
    forall k | 0 <= k <= |split| ensures FirstGiven(split, rest, n, parts, k) {
      assert FirstGiven(split, rest, m, parts, k);
      SumByEq(split[..k], GetOf(n), GetOf(m));
    }
  }
}
