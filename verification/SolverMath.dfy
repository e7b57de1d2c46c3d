/** The contract's arithmetic on unbounded integers (solver/src/math.ts). */
module SolverMath {
  import opened Common
  import opened Sorting
  import opened Solutions

  predicate LimitRespected(executedBuy: nat, sellAmount: nat, minBuyAmount: nat, executedSell: nat)
  {
    executedBuy * sellAmount >= minBuyAmount * executedSell
  }

  predicate FeeWithinBand(valueIn: nat, valueOut: nat, maxFeeBps: nat)
  {
    valueOut <= valueIn && (valueIn - valueOut) * BPS <= valueIn * maxFeeBps
  }

  predicate WithinBand(price: int, reference: nat, maxDeviationBps: nat)
  {
    Abs(price - reference) * BPS <= reference * maxDeviationBps
  }

  predicate UniformPriceHolds(executedSell: nat, executedBuy: nat, sellPrice: nat, buyPrice: nat)
  {
    FeeWithinBand(executedSell * sellPrice, executedBuy * buyPrice, FEE_CAP_NOTIONAL_BPS)
  }

  // ----- raiseToFloor

  function Identity(): int -> int { (x: int) => x }

  function Total(xs: seq<int>): int { SumBy(xs, Identity()) }

  lemma TotalUpdate(xs: seq<int>, k: nat, v: int)
    requires k < |xs|
    ensures Total(xs[k := v]) == Total(xs) - xs[k] + v
  {
    SumByRemove(xs, k, Identity());
    SumByRemove(xs[k := v], k, Identity());
    assert xs[k := v][..k] + xs[k := v][k + 1..] == xs[..k] + xs[k + 1..];
  }

  /** How far position k's baseline can rise. */
  function Room(baselines: seq<nat>, executedBuys: seq<nat>, k: nat): int
    requires k < |baselines| == |executedBuys|
  {
    executedBuys[k] as int - baselines[k]
  }

  /** Every entry is a position of a list of length n. */
  predicate Within(order: seq<nat>, n: nat)
  {
    forall j :: 0 <= j < |order| ==> order[j] < n
  }

  /** Most room under the executed buy first, ties by position. */
  function RoomOrder(baselines: seq<nat>, executedBuys: seq<nat>): (nat, nat) -> bool
    requires |baselines| == |executedBuys|
  {
    (a: nat, b: nat) =>
      if a < |baselines| && b < |baselines| then
        var ra, rb := Room(baselines, executedBuys, a), Room(baselines, executedBuys, b);
        ra > rb || (ra == rb && a <= b)
      else if a >= |baselines| && b >= |baselines| then a <= b
      else a < b
  }

  function Positions(n: nat): (r: seq<nat>)
    ensures |r| == n && forall k :: 0 <= k < n ==> r[k] == k
  {
    seq(n, k => k)
  }

  function ByRoom(baselines: seq<nat>, executedBuys: seq<nat>): seq<nat>
    requires |baselines| == |executedBuys|
  {
    Sort(Positions(|baselines|), RoomOrder(baselines, executedBuys))
  }

  /** The first has more room, or as much and an earlier place. */
  predicate Ahead(baselines: seq<nat>, executedBuys: seq<nat>, j: nat, k: nat)
    requires j < |baselines| == |executedBuys| && k < |baselines|
  {
    var first, second := Room(baselines, executedBuys, j), Room(baselines, executedBuys, k);
    first > second || (first == second && j < k)
  }

  lemma ByRoomIsOrder(baselines: seq<nat>, executedBuys: seq<nat>)
    requires |baselines| == |executedBuys|
    ensures var order := ByRoom(baselines, executedBuys);
      && Distinct(order)
      && Within(order, |baselines|)
      && (forall k: nat :: k < |baselines| ==> k in order)
      && (forall a, b :: 0 <= a < b < |order| ==> Ahead(baselines, executedBuys, order[a], order[b]))
  {
    var le := RoomOrder(baselines, executedBuys);
    var order := ByRoom(baselines, executedBuys);
    SortPermutes(Positions(|baselines|), le);
    SortSorts(Positions(|baselines|), le);
    hide Sort, ByRoom, Room, Ahead, Sorted;
    DistinctPermutes(Positions(|baselines|), order);
    forall k: nat | k < |baselines| ensures k in order {
      assert Positions(|baselines|)[k] == k;
    }
    forall a | 0 <= a < |order| ensures order[a] < |baselines| {
      assert order[a] in order;
    }
    SortedIsAhead(baselines, executedBuys, order);
  }

  lemma SortedIsAhead(baselines: seq<nat>, executedBuys: seq<nat>, order: seq<nat>)
    requires |baselines| == |executedBuys| && Within(order, |baselines|) && Distinct(order)
    requires Sorted(order, RoomOrder(baselines, executedBuys))
    ensures forall a, b :: 0 <= a < b < |order| ==> Ahead(baselines, executedBuys, order[a], order[b])
  {
    hide Room;
    forall a, b | 0 <= a < b < |order| ensures Ahead(baselines, executedBuys, order[a], order[b]) {
      assert RoomOrder(baselines, executedBuys)(order[a], order[b]);
    }
  }

  datatype Raising = Raising(out: seq<int>, short: int)

  /** One position: lift its baseline into its room, up to what is still short. */
  function RaiseOne(executedBuys: seq<nat>, r: Raising, k: nat): (s: Raising)
    requires k < |r.out| == |executedBuys|
    ensures |s.out| == |r.out|
  {
    if r.short <= 0 then r
    else
      var add := Min(executedBuys[k] - r.out[k], r.short);
      if add > 0 then Raising(r.out[k := r.out[k] + add], r.short - add) else r
  }

  /** The positions of `order`, one after another. */
  function RaiseAll(executedBuys: seq<nat>, r: Raising, order: seq<nat>): (s: Raising)
    requires |r.out| == |executedBuys|
    requires Within(order, |executedBuys|)
    ensures |s.out| == |r.out|
  {
    if order == [] then r
    else RaiseOne(executedBuys, RaiseAll(executedBuys, r, order[..|order| - 1]), order[|order| - 1])
  }

  /** Raised baselines, or None when the room is not there. */
  function Raised(baselines: seq<nat>, executedBuys: seq<nat>, floor: nat): Option<seq<int>>
    requires |baselines| == |executedBuys|
  {
    ByRoomIsOrder(baselines, executedBuys);
    var r := RaiseAll(executedBuys, Raising(baselines, floor - Total(baselines)), ByRoom(baselines, executedBuys));
    if r.short > 0 then None else Some(r.out)
  }

  /** raiseToFloor's loop over the positions by room, leaving when nothing is short. */
  method RaiseLoop(baselines: seq<nat>, executedBuys: seq<nat>, shortfall: int,
      order: seq<nat>) returns (out: seq<int>, short: int)
    requires |baselines| == |executedBuys|
    requires Within(order, |executedBuys|)
    ensures Raising(out, short) == RaiseAll(executedBuys, Raising(baselines, shortfall), order)
  {
    out, short := baselines, shortfall;
    ghost var start := Raising(baselines, shortfall);
    var n := 0;
    while n < |order| && short > 0
      invariant 0 <= n <= |order|
      invariant |out| == |executedBuys|
      invariant Raising(out, short) == RaiseAll(executedBuys, start, order[..n])
    {
      assert order[..n + 1][..n] == order[..n];
      var k := order[n];
      var room := executedBuys[k] - out[k];
      var add := if room < short then room else short;
      if add > 0 {
        out := out[k := out[k] + add];
        short := short - add;
      }
      n := n + 1;
    }
    RaiseStops(executedBuys, start, order, n);
  }

  method RaiseToFloor(baselines: seq<nat>, executedBuys: seq<nat>, floor: nat) returns (r: Option<seq<int>>)
    requires |baselines| == |executedBuys|
    ensures r == Raised(baselines, executedBuys, floor)
  {
    ByRoomIsOrder(baselines, executedBuys);
    var out, short := RaiseLoop(baselines, executedBuys, floor - Total(baselines), ByRoom(baselines, executedBuys));
    r := if short > 0 then None else Some(out);
  }

  /** Nothing more happens once nothing is short. */
  lemma {:induction false} RaiseStops(executedBuys: seq<nat>, r: Raising, order: seq<nat>, n: nat)
    requires |r.out| == |executedBuys|
    requires Within(order, |executedBuys|)
    requires n <= |order|
    requires n < |order| ==> RaiseAll(executedBuys, r, order[..n]).short <= 0
    ensures RaiseAll(executedBuys, r, order) == RaiseAll(executedBuys, r, order[..n])
  {
    if n == |order| {
      assert order[..n] == order;
    } else {
      var init := order[..|order| - 1];
      assert init[..n] == order[..n];
      RaiseStops(executedBuys, r, init, n);
    }
  }

  /** What one prefix of the loop has done: the total moved by exactly what is no longer short, and each position
      visited is at its ceiling, untouched, or the one the last unit went to. */
  lemma {:induction false} RaiseKeeps(baselines: seq<nat>, executedBuys: seq<nat>, short: int, order: seq<nat>)
    requires |baselines| == |executedBuys|
    requires Distinct(order)
    requires Within(order, |executedBuys|)
    ensures var r := RaiseAll(executedBuys, Raising(baselines, short), order);
      && Total(r.out) + r.short == Total(baselines) + short
      && (short <= 0 ==> r.short == short)
      && (short > 0 ==> r.short >= 0)
      && (forall k :: 0 <= k < |baselines| ==> baselines[k] <= r.out[k] <= Max(baselines[k], executedBuys[k]))
      && (forall k :: 0 <= k < |baselines| && k !in order ==> r.out[k] == baselines[k])
      && (r.short > 0 ==> forall k :: k in order ==> r.out[k] == Max(baselines[k], executedBuys[k]))
  {
    if order == [] {
    } else {
      hide Total;
      var init, k := order[..|order| - 1], order[|order| - 1];
      RaiseKeeps(baselines, executedBuys, short, init);
      var before := RaiseAll(executedBuys, Raising(baselines, short), init);
      assert k !in init;
      assert forall j :: j in order <==> j in init || j == k;
      RaiseOneKeeps(baselines, executedBuys, before, k);
      hide RaiseOne, RaiseAll;
    }
  }

  /** One visit: the total moves by what is no longer short, and only a position with room left is touched. */
  lemma RaiseOneKeeps(baselines: seq<nat>, executedBuys: seq<nat>, r: Raising, k: nat)
    requires k < |baselines| == |executedBuys| == |r.out| && r.out[k] == baselines[k]
    ensures var s := RaiseOne(executedBuys, r, k);
      && Total(s.out) + s.short == Total(r.out) + r.short
      && (r.short <= 0 ==> s.short == r.short) && (r.short > 0 ==> 0 <= s.short <= r.short)
      && (forall j :: 0 <= j < |baselines| && j != k ==> s.out[j] == r.out[j])
      && baselines[k] <= s.out[k] <= Max(baselines[k], executedBuys[k])
      && (s.short > 0 ==> s.out[k] == Max(baselines[k], executedBuys[k]))
  {
    hide Total;
    if r.short > 0 {
      TotalUpdate(r.out, k, r.out[k] + Min(executedBuys[k] - r.out[k], r.short));
    }
  }

  /** The greedy order shows in the result: a position is raised only if every earlier one is at its ceiling. */
  lemma {:induction false} RaiseIsGreedy(baselines: seq<nat>, executedBuys: seq<nat>, short: int, order: seq<nat>,
      a: nat, b: nat)
    requires |baselines| == |executedBuys|
    requires Distinct(order)
    requires Within(order, |executedBuys|)
    requires a < b < |order|
    ensures var out := RaiseAll(executedBuys, Raising(baselines, short), order).out;
      out[order[b]] > baselines[order[b]] ==> out[order[a]] == Max(baselines[order[a]], executedBuys[order[a]])
  {
    var init, k := order[..|order| - 1], order[|order| - 1];
    RaiseKeeps(baselines, executedBuys, short, init);
    assert order[a] == init[a] && order[a] in init && order[a] != k;
    assert k !in init;
    if b < |init| {
      assert order[b] == init[b];
      RaiseIsGreedy(baselines, executedBuys, short, init, a, b);
    }
  }

  /** raiseToFloor fails exactly when the floor is above what the fills could carry; otherwise it raises each baseline
      within its own room and the sum becomes exactly the larger of the old sum and the floor. */
  lemma RaisedMeetsFloor(baselines: seq<nat>, executedBuys: seq<nat>, floor: nat)
    requires |baselines| == |executedBuys|
    ensures var ceilings := seq(|baselines|, k requires 0 <= k < |baselines| => Max(baselines[k], executedBuys[k]));
      Raised(baselines, executedBuys, floor).None? <==> floor > Total(ceilings)
    ensures Raised(baselines, executedBuys, floor).Some? ==>
      var out := Raised(baselines, executedBuys, floor).value;
      && |out| == |baselines|
      && (forall k :: 0 <= k < |baselines| ==> baselines[k] <= out[k] <= Max(baselines[k], executedBuys[k]))
      && Total(out) == Max(Total(baselines), floor)
  {
    hide RaiseAll, ByRoom, Total, Distinct, Room;
    var order := ByRoom(baselines, executedBuys);
    ByRoomIsOrder(baselines, executedBuys);
    RaiseKeeps(baselines, executedBuys, floor - Total(baselines), order);
    var r := RaiseAll(executedBuys, Raising(baselines, floor - Total(baselines)), order);
    var ceilings := seq(|baselines|, k requires 0 <= k < |baselines| => Max(baselines[k], executedBuys[k]));
    if r.short > 0 {
      forall k | 0 <= k < |ceilings| ensures r.out[k] == ceilings[k] {
        assert k in order;
      }
      assert r.out == ceilings;
    } else {
      TotalLe(r.out, ceilings);
      if floor - Total(baselines) <= 0 {
        TotalLe(baselines, ceilings);
      }
    }
  }

  /** Whoever is raised, every fill with more room, or with as much and an earlier place, is already at its executed
      buy. */
  lemma RaisedTakesMostRoomFirst(baselines: seq<nat>, executedBuys: seq<nat>, floor: nat, j: nat, k: nat)
    requires |baselines| == |executedBuys|
    requires Raised(baselines, executedBuys, floor).Some?
    requires j < |baselines| && k < |baselines|
    requires Ahead(baselines, executedBuys, j, k)
    ensures var out := Raised(baselines, executedBuys, floor).value;
      |out| == |baselines| && (out[k] > baselines[k] ==> out[j] == Max(baselines[j], executedBuys[j]))
  {
    var order := ByRoom(baselines, executedBuys);
    ByRoomIsOrder(baselines, executedBuys);
    assert j in order && k in order;
    var a :| 0 <= a < |order| && order[a] == j;
    var b :| 0 <= b < |order| && order[b] == k;
    assert a < b;
    RaiseIsGreedy(baselines, executedBuys, floor - Total(baselines), order, a, b);
  }

  lemma {:induction false} TotalLe(xs: seq<int>, ys: seq<int>)
    requires |xs| == |ys|
    requires forall k :: 0 <= k < |xs| ==> xs[k] <= ys[k]
    ensures Total(xs) <= Total(ys)
  {
    if xs != [] {
      TotalLe(xs[..|xs| - 1], ys[..|ys| - 1]);
    }
  }

  // ----- savings, deltas and balances of a whole solution

  /** The intent an execution names sells the token at position t. */
  predicate SellsAt(intents: seq<Intent>, tokens: seq<Address>, t: nat, e: Execution)
  {
    e.intentIndex < |intents| && TokenIndex(tokens, intents[e.intentIndex].sellToken) == Some(t)
  }

  predicate BuysAt(intents: seq<Intent>, tokens: seq<Address>, t: nat, e: Execution)
  {
    e.intentIndex < |intents| && TokenIndex(tokens, intents[e.intentIndex].buyToken) == Some(t)
  }

  function PulledAt(intents: seq<Intent>, tokens: seq<Address>, t: nat): Execution -> int
  {
    (e: Execution) => if SellsAt(intents, tokens, t, e) then e.executedSell else 0
  }

  function DeliveredAt(intents: seq<Intent>, tokens: seq<Address>, t: nat): Execution -> int
  {
    (e: Execution) => if BuysAt(intents, tokens, t, e) then e.executedBuy else 0
  }

  /** What a call credits to position t: its minimum output there, less what it takes in. */
  function CallDelta(tokens: seq<Address>, t: nat): VenueCall -> int
  {
    (c: VenueCall) =>
      (if TokenIndex(tokens, c.tokenOut) == Some(t) then c.minOut else 0)
      - (if TokenIndex(tokens, c.tokenIn) == Some(t) then c.amountIn else 0)
  }

  /** Settlement._venueDeltas, or None where a call names a token outside the list. */
  function VenueDeltas(calls: seq<VenueCall>, tokens: seq<Address>): Option<seq<int>>
  {
    if forall c :: c in calls ==> c.tokenIn in tokens && c.tokenOut in tokens
    then Some(seq(|tokens|, t requires 0 <= t => SumBy(calls, CallDelta(tokens, t))))
    else None
  }

  /** Tokens left at position t after the batch. */
  function BalanceAt(s: Solution, t: nat): int
  {
    SumBy(s.executions, PulledAt(s.intents, s.tokens, t))
    + SumBy(s.venueCalls, CallDelta(s.tokens, t))
    - SumBy(s.executions, DeliveredAt(s.intents, s.tokens, t))
  }

  /** One execution's savings, floored on its own, or None where the source throws. */
  function SavingsOf(e: Execution, baseline: nat, prices: seq<nat>, intents: seq<Intent>,
      tokens: seq<Address>): Option<nat>
  {
    if e.intentIndex >= |intents| || e.executedBuy < baseline then None
    else match TokenIndex(tokens, intents[e.intentIndex].buyToken)
      case None => None
      case Some(t) => if t < |prices| then Some((e.executedBuy - baseline) * prices[t] / WAD) else None
  }

  /** claimedSavings, or None where the source throws. */
  function ClaimedSavings(executions: seq<Execution>, baselines: seq<nat>, prices: seq<nat>, intents: seq<Intent>,
      tokens: seq<Address>): Option<nat>
  {
    if |executions| != |baselines| then None
    else if executions == [] then Some(0)
    else
      var n := |executions| - 1;
      var before := ClaimedSavings(executions[..n], baselines[..n], prices, intents, tokens);
      var last := SavingsOf(executions[n], baselines[n], prices, intents, tokens);
      if before.Some? && last.Some? then Some(before.value + last.value) else None
  }

  /** claimedSavings' loop. */
  method SumSavings(executions: seq<Execution>, baselines: seq<nat>, prices: seq<nat>, intents: seq<Intent>,
      tokens: seq<Address>)
    returns (r: Option<nat>)
    ensures r == ClaimedSavings(executions, baselines, prices, intents, tokens)
  {
    if |executions| != |baselines| {
      return None;
    }
    var savings := 0;
    for k := 0 to |executions|
      invariant ClaimedSavings(executions[..k], baselines[..k], prices, intents, tokens) == Some(savings)
    {
      assert executions[..k + 1][..k] == executions[..k] && baselines[..k + 1][..k] == baselines[..k];
      var one := SavingsOf(executions[k], baselines[k], prices, intents, tokens);
      if one.None? {
        SavingsThrow(executions, baselines, prices, intents, tokens, k + 1);
        return None;
      }
      savings := savings + one.value;
    }
    assert executions[..|executions|] == executions && baselines[..|executions|] == baselines;
    r := Some(savings);
  }

  lemma {:induction false} SavingsThrow(executions: seq<Execution>, baselines: seq<nat>, prices: seq<nat>,
      intents: seq<Intent>, tokens: seq<Address>, n: nat)
    requires n <= |executions| == |baselines|
    requires ClaimedSavings(executions[..n], baselines[..n], prices, intents, tokens).None?
    ensures ClaimedSavings(executions, baselines, prices, intents, tokens).None?
  {
    if n == |executions| {
      assert executions[..n] == executions && baselines[..n] == baselines;
    } else {
      var m := |executions| - 1;
      assert executions[..m][..n] == executions[..n] && baselines[..m][..n] == baselines[..n];
      SavingsThrow(executions[..m], baselines[..m], prices, intents, tokens, n);
    }
  }
}
