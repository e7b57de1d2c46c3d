/** A total split pro rata by largest remainder (solver/src/cross.ts, the seller side of planCross). */
module Shares {
  import opened Common
  import opened Sorting
  import opened Solutions
  import opened SolverMath

  /** Sizes to split over, the id each tie is broken by, and the total to hand out of what is available. */
  datatype Split = Split(sizes: seq<nat>, ids: seq<nat>, target: nat, available: nat) {
    predicate Valid() { available > 0 && |ids| == |sizes| }

    function Floor(k: nat): nat
      requires Valid() && k < |sizes|
    {
      sizes[k] * target / available
    }

    function Rem(k: nat): nat
      requires Valid() && k < |sizes|
    {
      sizes[k] * target % available
    }

    function Floors(): (r: seq<nat>)
      requires Valid()
      ensures |r| == |sizes| && forall k :: 0 <= k < |sizes| ==> r[k] == Floor(k)
    {
      seq(|sizes|, k requires 0 <= k < |sizes| => Floor(k))
    }

    function Rems(): (r: seq<nat>)
      requires Valid()
      ensures |r| == |sizes| && forall k :: 0 <= k < |sizes| ==> r[k] == Rem(k)
    {
      seq(|sizes|, k requires 0 <= k < |sizes| => Rem(k))
    }
  }

  /** Largest remainder first, ties by id. */
  function RemainderOrder(s: Split): (nat, nat) -> bool
    requires s.Valid()
  {
    (a: nat, b: nat) =>
      if a < |s.sizes| && b < |s.sizes| then s.Rem(a) > s.Rem(b) || (s.Rem(a) == s.Rem(b) && s.ids[a] <= s.ids[b])
      else b >= |s.sizes|
  }

  function ByRemainder(s: Split): seq<nat>
    requires s.Valid()
  {
    Sort(Positions(|s.sizes|), RemainderOrder(s))
  }

  lemma ByRemainderIsOrder(s: Split)
    requires s.Valid()
    ensures var order := ByRemainder(s);
      && multiset(order) == multiset(Positions(|s.sizes|))
      && |order| == |s.sizes| && Distinct(order) && Within(order, |s.sizes|)
      && (forall a, b :: 0 <= a < b < |order| ==> s.Rem(order[a]) >= s.Rem(order[b]))
  {
    var le := RemainderOrder(s);
    var order := ByRemainder(s);
    SortPermutes(Positions(|s.sizes|), le);
    SortSorts(Positions(|s.sizes|), le);
    hide Sort, ByRemainder, Split.Rem, Split.Floor;
    DistinctPermutes(Positions(|s.sizes|), order);
    forall a | 0 <= a < |order| ensures order[a] < |s.sizes| {
      assert order[a] in order;
    }
    forall a, b | 0 <= a < b < |order| ensures s.Rem(order[a]) >= s.Rem(order[b]) {
      assert le(order[a], order[b]);
    }
  }

  datatype Placing = Placing(xs: seq<nat>, left: int)

  /** One more unit for position k while any is left and it has room. */
  function PlaceOne(sizes: seq<nat>, p: Placing, k: nat): (q: Placing)
    requires k < |p.xs| == |sizes|
    ensures |q.xs| == |p.xs|
  {
    if p.left != 0 && p.xs[k] < sizes[k] then Placing(p.xs[k := p.xs[k] + 1], p.left - 1) else p
  }

  function PlaceAll(sizes: seq<nat>, p: Placing, order: seq<nat>): (q: Placing)
    requires |p.xs| == |sizes| && Within(order, |sizes|)
    ensures |q.xs| == |p.xs|
  {
    if order == [] then p else PlaceOne(sizes, PlaceAll(sizes, p, order[..|order| - 1]), order[|order| - 1])
  }

  /** Floors first, then one unit each to the largest remainders. */
  function Place(s: Split): (q: Placing)
    requires s.Valid()
    ensures |q.xs| == |s.sizes|
  {
    ByRemainderIsOrder(s);
    PlaceAll(s.sizes, Placing(s.Floors(), s.target - Total(s.Floors())), ByRemainder(s))
  }

  lemma {:induction false} NothingLeft(sizes: seq<nat>, p: Placing, order: seq<nat>, n: nat)
    requires |p.xs| == |sizes| && Within(order, |sizes|) && n <= |order|
    requires PlaceAll(sizes, p, order[..n]).left == 0
    ensures PlaceAll(sizes, p, order) == PlaceAll(sizes, p, order[..n])
  {
    if n == |order| {
      assert order[..n] == order;
    } else {
      assert order[..|order| - 1][..n] == order[..n];
      NothingLeft(sizes, p, order[..|order| - 1], n);
    }
  }

  /** The loop over the sorted shares, raising each in place and leaving when nothing is left. */
  method PlaceLoop(x: array<nat>, sizes: seq<nat>, left: int, order: seq<nat>) returns (rest: int)
    requires x.Length == |sizes| && Within(order, |sizes|)
    modifies x
    ensures Placing(x[..], rest) == PlaceAll(sizes, Placing(old(x[..]), left), order)
  {
    ghost var start := Placing(x[..], left);
    rest := left;
    var n := 0;
    while n < |order| && rest != 0
      invariant 0 <= n <= |order|
      invariant Placing(x[..], rest) == PlaceAll(sizes, start, order[..n])
    {
      assert order[..n + 1][..n] == order[..n];
      var k := order[n];
      if x[k] < sizes[k] {
        x[k] := x[k] + 1;
        rest := rest - 1;
      }
      n := n + 1;
    }
    if n == |order| {
      assert order[..n] == order;
    } else {
      NothingLeft(sizes, start, order, n);
    }
  }

  // ----- every unit is placed, and each share is fair

  lemma FloorRem(s: Split, k: nat)
    requires s.Valid() && k < |s.sizes|
    ensures s.sizes[k] * s.target == s.Floor(k) * s.available + s.Rem(k)
    ensures 0 <= s.Rem(k) < s.available
  {
  }

  /** Remainders are what the floors leave: they sum to a whole number of available units. */
  lemma {:induction false} RemainderSum(s: Split, n: nat)
    requires s.Valid() && n <= |s.sizes|
    ensures Total(s.sizes[..n]) * s.target == Total(s.Floors()[..n]) * s.available + Total(s.Rems()[..n])
  {
    hide Split.Floor, Split.Rem;
    if n > 0 {
      RemainderSum(s, n - 1);
      FloorRem(s, n - 1);
      hide Total;
      TotalStep(s.sizes, n - 1);
      TotalStep(s.Floors(), n - 1);
      TotalStep(s.Rems(), n - 1);
      var size, floor, rem := s.sizes[n - 1], s.Floor(n - 1), s.Rem(n - 1);
      Spread(Total(s.sizes[..n - 1]), size, s.target);
      Spread(Total(s.Floors()[..n - 1]), floor, s.available);
    }
  }

  lemma TotalStep(xs: seq<int>, k: nat)
    requires k < |xs|
    ensures Total(xs[..k + 1]) == Total(xs[..k]) + xs[k]
  {
    SumByStep(xs, k, Identity());
  }

  function RemAt(s: Split): nat -> int
    requires s.Valid()
  {
    (k: nat) => if k < |s.sizes| then s.Rem(k) else 0
  }

  lemma {:induction false} RemsByPosition(s: Split, n: nat)
    requires s.Valid() && n <= |s.sizes|
    ensures SumBy(Positions(n), RemAt(s)) == Total(s.Rems()[..n])
  {
    hide Split.Floor, Split.Rem, Total;
    if n == 0 {
      NoneTotal();
    } else {
      RemsByPosition(s, n - 1);
      TotalStep(s.Rems(), n - 1);
      assert Positions(n)[..n - 1] == Positions(n - 1);
    }
  }

  lemma NoneTotal()
    ensures Total([]) == 0
  {
  }

  lemma TotalNonNegative(xs: seq<int>)
    requires forall k :: 0 <= k < |xs| ==> xs[k] >= 0
    ensures Total(xs) >= 0
  {
    SumByNonNegative(xs, Identity());
  }

  /** What is left after the floors, in units. */
  function LeftOver(s: Split): int
    requires s.Valid()
  {
    s.target - Total(s.Floors())
  }

  /** The remainders add up to exactly what is left, a multiple of what is available. */
  lemma LeftIsRemainders(s: Split)
    requires s.Valid() && Total(s.sizes) == s.available
    ensures SumBy(ByRemainder(s), RemAt(s)) == LeftOver(s) * s.available
    ensures LeftOver(s) >= 0
  {
    hide SumBy, ByRemainder, Total, Split.Floor, Split.Rem;
    RemainderSum(s, |s.sizes|);
    RemsByPosition(s, |s.sizes|);
    ByRemainderIsOrder(s);
    SumByPermutation(ByRemainder(s), Positions(|s.sizes|), RemAt(s));
    assert s.sizes[..|s.sizes|] == s.sizes && s.Floors()[..|s.sizes|] == s.Floors()
      && s.Rems()[..|s.sizes|] == s.Rems();
    TotalNonNegative(s.Rems());
    LeftProduct(s.target, Total(s.Floors()), s.available, Total(s.Rems()));
  }

  lemma LeftProduct(target: int, floors: int, available: int, rems: int)
    requires available > 0 && rems >= 0
    requires available * target == floors * available + rems
    ensures rems == (target - floors) * available && target - floors >= 0
  {
    if target - floors < 0 {
      MulMono(target - floors, -1, available);
    }
  }

  /** Fewer units are left than there are shares with a remainder, so each of the first ones in order has one. */
  lemma LeftHasRemainders(s: Split, j: nat)
    requires s.Valid() && Total(s.sizes) == s.available
    requires j < LeftOver(s)
    ensures j < |s.sizes| && Within(ByRemainder(s), |s.sizes|) && |ByRemainder(s)| == |s.sizes|
    ensures s.Rem(ByRemainder(s)[j]) > 0
  {
    hide ByRemainder, LeftOver, Split.Floor, Split.Rem, SumBy, Total, Distinct;
    LeftIsRemainders(s);
    ByRemainderIsOrder(s);
    var order := ByRemainder(s);
    forall k | k in order ensures 0 <= RemAt(s)(k) < s.available {
      FloorRem(s, k);
    }
    if j >= |order| {
      SumByBound(order, RemAt(s), s.available);
      MulMono(|order|, j, s.available);
      MulStrict(j, LeftOver(s), s.available);
    } else {
      FloorRem(s, order[j]);
      if s.Rem(order[j]) == 0 {
        FrontHoldsAll(s, order, j);
        MulStrict(j, LeftOver(s), s.available);
      }
    }
  }

  /** From a position without a remainder on there is none, so what comes before holds them all. */
  lemma FrontHoldsAll(s: Split, order: seq<nat>, j: nat)
    requires s.Valid() && j < |order| && Within(order, |s.sizes|)
    requires forall a, b :: 0 <= a < b < |order| ==> s.Rem(order[a]) >= s.Rem(order[b])
    requires s.Rem(order[j]) == 0
    requires forall k :: k in order ==> RemAt(s)(k) < s.available
    ensures SumBy(order, RemAt(s)) <= j * s.available
  {
    hide Split.Floor, Split.Rem, SumBy;
    BackHoldsNone(s, order, j);
    hide RemAt, Within;
    var front, back := order[..j], order[j..];
    assert order == front + back;
    SumByAppend(front, back, RemAt(s));
    SumByBound(front, RemAt(s), s.available);
  }

  lemma BackHoldsNone(s: Split, order: seq<nat>, j: nat)
    requires s.Valid() && j < |order| && Within(order, |s.sizes|)
    requires forall a, b :: 0 <= a < b < |order| ==> s.Rem(order[a]) >= s.Rem(order[b])
    requires s.Rem(order[j]) == 0
    ensures SumBy(order[j..], RemAt(s)) <= 0
  {
    hide Split.Floor, Split.Rem, SumBy;
    var back := order[j..];
    forall k | k in back ensures RemAt(s)(k) <= 0 {
      var b :| 0 <= b < |back| && back[b] == k;
      assert order[j + b] == k;
    }
    SumByBound(back, RemAt(s), 0);
  }

  /** A share with a remainder is below its size. */
  lemma RemainderLeavesRoom(s: Split, k: nat)
    requires s.Valid() && k < |s.sizes| && s.target <= s.available
    ensures s.Floor(k) <= s.sizes[k]
    ensures s.Rem(k) > 0 ==> s.Floor(k) < s.sizes[k]
    ensures CeilDiv(s.sizes[k] * s.target, s.available) == (if s.Rem(k) > 0 then s.Floor(k) + 1 else s.Floor(k))
  {
    FloorRem(s, k);
    hide Split.Floor, Split.Rem;
    MulMono(s.target, s.available, s.sizes[k]);
    RoomUnderSize(s.sizes[k], s.sizes[k] * s.target, s.available, s.Floor(k), s.Rem(k));
  }

  lemma RoomUnderSize(size: nat, exact: nat, available: nat, floor: nat, rem: nat)
    requires available > 0 && exact <= size * available
    requires exact == floor * available + rem && rem < available
    ensures floor <= size
    ensures rem > 0 ==> floor < size
    ensures CeilDiv(exact, available) == (if rem > 0 then floor + 1 else floor)
  {
    MulCancel(floor, size, available);
    CeilingDiv(exact, available, floor);
    CeilingDiv(exact, available, floor + 1);
    CeilingDiv(exact, available, floor - 1);
    Spread(floor, 1, available);
    Spread(floor, -1, available);
  }

  /** The shares after the first n positions of the order: one unit each until nothing is left. */
  ghost predicate Placed(s: Split, order: seq<nat>, n: nat, p: Placing)
    requires s.Valid() && |p.xs| == |s.sizes| && Within(order, |s.sizes|) && n <= |order|
  {
    && p.left == Max(0, LeftOver(s) - n)
    && Total(p.xs) + p.left == s.target
    && (forall k :: k in order[..n] ==> p.xs[k] == s.Floor(k) || (p.xs[k] == s.Floor(k) + 1 && s.Rem(k) > 0))
    && (forall k :: 0 <= k < |s.sizes| && k !in order[..n] ==> p.xs[k] == s.Floor(k))
  }

  lemma PlaceStep(s: Split, order: seq<nat>, n: nat, p: Placing)
    requires s.Valid() && |p.xs| == |s.sizes| && Within(order, |s.sizes|) && n < |order| && Distinct(order)
    requires s.target <= s.available
    requires Placed(s, order, n, p)
    requires n < LeftOver(s) ==> s.Rem(order[n]) > 0
    ensures Placed(s, order, n + 1, PlaceOne(s.sizes, p, order[n]))
  {
    var k := order[n];
    hide LeftOver, Total;
    assert k !in order[..n];
    assert forall j :: j in order[..n + 1] <==> j in order[..n] || j == k;
    RemainderLeavesRoom(s, k);
    TotalUpdate(p.xs, k, p.xs[k] + 1);
  }

  lemma {:induction false} PlacePrefix(s: Split, n: nat)
    requires s.Valid() && Total(s.sizes) == s.available && s.target <= s.available
    requires Within(ByRemainder(s), |s.sizes|) && Distinct(ByRemainder(s)) && n <= |ByRemainder(s)|
    ensures Placed(s, ByRemainder(s), n, PlaceAll(s.sizes, Placing(s.Floors(), LeftOver(s)), ByRemainder(s)[..n]))
  {
    var order, start := ByRemainder(s), Placing(s.Floors(), LeftOver(s));
    if n == 0 {
      LeftIsRemainders(s);
    } else {
      PlacePrefix(s, n - 1);
      hide ByRemainder, Placed, LeftOver;
      if n - 1 < LeftOver(s) {
        LeftHasRemainders(s, n - 1);
      }
      assert order[..n][..n - 1] == order[..n - 1];
      PlaceStep(s, order, n - 1, PlaceAll(s.sizes, start, order[..n - 1]));
    }
  }

  /** Every unit is placed: the shares sum to the target, none exceeds its size, and each is the floor or the ceiling
      of its exact pro rata part. */
  lemma PlaceExact(s: Split)
    requires s.Valid() && Total(s.sizes) == s.available && s.target <= s.available
    ensures Place(s).left == 0
    ensures Total(Place(s).xs) == s.target
    ensures forall k :: 0 <= k < |s.sizes| ==>
      && Place(s).xs[k] <= s.sizes[k]
      && (Place(s).xs[k] == s.Floor(k) || Place(s).xs[k] == CeilDiv(s.sizes[k] * s.target, s.available))
  {
    hide PlaceAll, ByRemainder, Total, Split.Floor, Split.Rem, Placed, LeftOver, CeilDiv;
    ByRemainderIsOrder(s);
    var order := ByRemainder(s);
    PlaceWhole(s);
    hide Place;
    PlacePrefix(s, |order|);
    FewLeft(s);
    PlacedAll(s, order, Place(s));
  }

  lemma FewLeft(s: Split)
    requires s.Valid() && Total(s.sizes) == s.available
    ensures LeftOver(s) <= |s.sizes|
  {
    hide ByRemainder, Split.Floor, Split.Rem, LeftOver, Total;
    if LeftOver(s) > |s.sizes| {
      LeftHasRemainders(s, |s.sizes|);
    }
  }

  lemma PlaceWhole(s: Split)
    requires s.Valid()
    ensures Within(ByRemainder(s), |s.sizes|)
    ensures Place(s) == PlaceAll(s.sizes, Placing(s.Floors(), LeftOver(s)), ByRemainder(s)[..|ByRemainder(s)|])
  {
    hide ByRemainder, Split.Floor, Split.Rem, Total;
    ByRemainderIsOrder(s);
    assert ByRemainder(s)[..|ByRemainder(s)|] == ByRemainder(s);
  }

  lemma PlacedAll(s: Split, order: seq<nat>, p: Placing)
    requires s.Valid() && s.target <= s.available && LeftOver(s) <= |s.sizes|
    requires Within(order, |s.sizes|) && |order| == |s.sizes| == |p.xs|
    requires Placed(s, order, |order|, p)
    ensures p.left == 0 && Total(p.xs) == s.target
    ensures forall k :: 0 <= k < |s.sizes| ==>
      p.xs[k] <= s.sizes[k] && (p.xs[k] == s.Floor(k) || p.xs[k] == CeilDiv(s.sizes[k] * s.target, s.available))
  {
    hide LeftOver, Total, Split.Floor, Split.Rem;
    assert order[..|order|] == order;
    forall k | 0 <= k < |s.sizes|
      ensures p.xs[k] <= s.sizes[k] && (p.xs[k] == s.Floor(k) || p.xs[k] == CeilDiv(s.sizes[k] * s.target, s.available))
    {
      RemainderLeavesRoom(s, k);
    }
  }

  /** The units left over go one each to the first positions of the order. */
  ghost predicate FirstServed(s: Split, order: seq<nat>, n: nat, p: Placing)
    requires s.Valid() && |p.xs| == |s.sizes| && Within(order, |s.sizes|) && n <= |order|
  {
    forall j :: 0 <= j < n ==> p.xs[order[j]] == Served(s, order[j], j)
  }

  function Served(s: Split, k: nat, j: nat): nat
    requires s.Valid() && k < |s.sizes|
  {
    if j < LeftOver(s) then s.Floor(k) + 1 else s.Floor(k)
  }

  lemma ServeStep(s: Split, order: seq<nat>, n: nat, p: Placing)
    requires s.Valid() && s.target <= s.available && |p.xs| == |s.sizes| && Within(order, |s.sizes|)
    requires n < |order| && Distinct(order) && Placed(s, order, n, p) && FirstServed(s, order, n, p)
    requires n < LeftOver(s) ==> s.Rem(order[n]) > 0
    ensures FirstServed(s, order, n + 1, PlaceOne(s.sizes, p, order[n]))
  {
    hide LeftOver, Total, Split.Floor, Split.Rem, FirstServed;
    RemainderLeavesRoom(s, order[n]);
    assert order[n] !in order[..n];
    var q := PlaceOne(s.sizes, p, order[n]);
    assert q.xs[order[n]] == Served(s, order[n], n);
    hide Placed, PlaceOne, Served;
    OthersServed(s, order, n, p, q);
  }

  lemma OthersServed(s: Split, order: seq<nat>, n: nat, p: Placing, q: Placing)
    requires s.Valid() && |p.xs| == |s.sizes| == |q.xs| && Within(order, |s.sizes|) && n < |order| && Distinct(order)
    requires FirstServed(s, order, n, p) && q.xs[order[n]] == Served(s, order[n], n)
    requires q == PlaceOne(s.sizes, p, order[n])
    ensures FirstServed(s, order, n + 1, q)
  {
    hide Served;
    forall j | 0 <= j < n ensures q.xs[order[j]] == p.xs[order[j]] {
      assert order[j] != order[n];
    }
  }

  lemma {:induction false} PlaceServes(s: Split, order: seq<nat>, n: nat)
    requires s.Valid() && Total(s.sizes) == s.available && s.target <= s.available
    requires order == ByRemainder(s) && Within(order, |s.sizes|) && Distinct(order) && n <= |order|
    ensures FirstServed(s, order, n, PlaceAll(s.sizes, Placing(s.Floors(), LeftOver(s)), order[..n]))
  {
    hide ByRemainder, LeftOver, Split.Floor, Split.Rem, Total, Placed, PlaceOne, Served, Distinct;
    if n > 0 {
      var start := Placing(s.Floors(), LeftOver(s));
      hide FirstServed;
      PlaceServes(s, order, n - 1);
      PlacePrefix(s, n - 1);
      if n - 1 < LeftOver(s) { LeftHasRemainders(s, n - 1); }
      ServeStep(s, order, n - 1, PlaceAll(s.sizes, start, order[..n - 1]));
      assert order[..n][..n - 1] == order[..n - 1];
    }
  }

  /** A share above its floor has the larger remainder of any it is compared with at its floor, or an equal one and no
      later id. */
  lemma LargestFirst(s: Split, k: nat, j: nat)
    requires s.Valid() && Total(s.sizes) == s.available && s.target <= s.available
    requires k < |s.sizes| && j < |s.sizes|
    requires Place(s).xs[k] > s.sizes[k] * s.target / s.available
    requires Place(s).xs[j] == s.sizes[j] * s.target / s.available
    ensures var first, second := s.sizes[k] * s.target % s.available, s.sizes[j] * s.target % s.available;
      first > second || (first == second && s.ids[k] <= s.ids[j])
  {
    var order := ByRemainder(s);
    ByRemainderIsOrder(s);
    ByRemainderSorts(s);
    PlaceWhole(s);
    hide ByRemainder, Place, PlaceAll, LeftOver, Total;
    var a := IndexIn(s, k);
    var b := IndexIn(s, j);
    PlaceServes(s, order, |order|);
    assert Place(s).xs[k] == Served(s, k, a) && Place(s).xs[j] == Served(s, j, b);
    assert RemainderOrder(s)(order[a], order[b]);
  }

  lemma ByRemainderSorts(s: Split)
    requires s.Valid()
    ensures forall a, b :: 0 <= a < b < |ByRemainder(s)| ==> RemainderOrder(s)(ByRemainder(s)[a], ByRemainder(s)[b])
  {
    SortSorts(Positions(|s.sizes|), RemainderOrder(s));
  }

  /** Where a position stands in the order. */
  lemma IndexIn(s: Split, k: nat) returns (a: nat)
    requires s.Valid() && k < |s.sizes|
    ensures a < |ByRemainder(s)| && ByRemainder(s)[a] == k
  {
    ByRemainderIsOrder(s);
    assert Positions(|s.sizes|)[k] == k;
    assert k in multiset(Positions(|s.sizes|));
    assert k in multiset(ByRemainder(s));
    a :| 0 <= a < |ByRemainder(s)| && ByRemainder(s)[a] == k;
  }
}
