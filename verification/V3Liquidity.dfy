/** The liquidity a quote moves through (solver/src/v3math.ts, quoteExactIn). */
module V3Liquidity {
  import opened Common
  import opened V3Figures
  import opened V3Math
  import opened V3Quote

  /** The tick is initialized: a multiple of the spacing whose bit is set. */
  predicate InitializedAt(chain: Reads, spacing: int, tick: int)
    requires spacing > 0
  {
    tick % spacing == 0 && Initialized(chain, tick / spacing)
  }

  /** The liquidity in range at a tick: the net liquidity of every initialized tick at or below it. */
  function LiquidityAt(chain: Reads, spacing: int, tick: int): int
    requires spacing > 0
    decreases tick - MIN_TICK
  {
    if tick < MIN_TICK then 0
    else
      LiquidityAt(chain, spacing, tick - 1)
      + (if InitializedAt(chain, spacing, tick) then chain.liquidityNet(tick) else 0)
  }

  /** Between ticks with no initialized one after the lower up to the higher the liquidity is the same. */
  lemma {:induction false} SameLiquidity(chain: Reads, spacing: int, low: int, high: int)
    requires spacing > 0 && low <= high
    requires forall t :: low < t <= high && MIN_TICK <= t ==> !InitializedAt(chain, spacing, t)
    ensures LiquidityAt(chain, spacing, low) == LiquidityAt(chain, spacing, high)
    decreases high - low
  {
    hide InitializedAt;
    if low < high {
      SameLiquidity(chain, spacing, low, high - 1);
    }
  }

  /** Every tick's liquidity is a 128-bit number. */
  ghost predicate LiquidityFits(chain: Reads, spacing: int)
    requires spacing > 0
  {
    forall t: int :: 0 <= LiquidityAt(chain, spacing, t) < U128
  }

  /** The price lies between the tick's own and the next tick's. */
  ghost predicate Bracketed(chain: Reads, s: Swap)
  {
    && MIN_TICK - 1 <= s.tick <= MAX_TICK
    && (MIN_TICK <= s.tick ==> chain.priceAt(s.tick) <= s.price)
    && (s.tick < MAX_TICK ==> s.price <= chain.priceAt(s.tick + 1))
  }

  /** What holds before every round: the price at its tick, and the liquidity of that tick. */
  ghost predicate InStep(pool: PoolState, chain: Reads, zeroForOne: bool, s: Swap)
    requires pool.tickSpacing > 0
  {
    OnTrack(chain, zeroForOne, s) && Bracketed(chain, s) && s.liquidity == LiquidityAt(chain, pool.tickSpacing, s.tick)
  }

  /** The search for the next tick skips no initialized one. */
  lemma NothingSkipped(chain: Reads, tick: int, spacing: int, lte: bool)
    requires spacing > 0
    ensures var n := NextInitializedTick(chain, tick, spacing, lte);
      && (n.initialized <==> InitializedAt(chain, spacing, n.next))
      && forall t :: (if lte then n.next < t <= tick else tick < t < n.next) ==> !InitializedAt(chain, spacing, t)
  {
    var c := Compress(tick, spacing);
    CompressFloors(tick, spacing);
    NextCompressedExact(chain, c, lte);
    hide Compress, NextCompressed, Initialized;
    var k := NextCompressed(chain, c, lte).next;
    Multiple(k, spacing);
    forall t | if lte then k * spacing < t <= tick else tick < t < k * spacing
      ensures !InitializedAt(chain, spacing, t)
    {
      if t % spacing == 0 {
        Between(k, c, t, tick, spacing, lte);
      }
    }
  }

  lemma Multiple(k: int, d: int)
    requires d > 0
    ensures k * d % d == 0 && k * d / d == k
  {
    FloorDiv(k * d, d, k);
    FloorDiv(k * d, d, k + 1);
    Spread(k, 1, d);
    assert k * d == k * d / d * d + k * d % d;
  }

  /** A multiple between two ticks has its quotient between theirs. */
  lemma Between(k: int, c: int, t: int, tick: int, d: int, lte: bool)
    requires d > 0 && t % d == 0 && c * d <= tick < c * d + d
    requires if lte then k * d < t <= tick else tick < t < k * d
    ensures if lte then k < t / d <= c else c < t / d < k
  {
    assert t == t / d * d;
    MulCancel(k, t / d, d);
    MulCancel(t / d, k, d);
    Spread(c, 1, d);
    MulCancel(t / d, c + 1, d);
    MulCancel(c, t / d, d);
  }

  /** A round moves nothing when the price, standing exactly on the tick just crossed downward, ends short of the next
      one without moving. Its input is then used up, and the tick it ends on is the one it had crossed. */
  predicate Unmoved(chain: Reads, zeroForOne: bool, s: Swap, next: Swap)
  {
    zeroForOne && s.tick < MAX_TICK && next.price == s.price == chain.priceAt(s.tick + 1) && next.remaining == 0
  }

  /** One step short of its target ends on a tick with no initialized one on the way, unless it did not move. */
  lemma PartialTick(pool: PoolState, chain: Reads, zeroForOne: bool, s: Swap, price: nat)
    requires Consistent(pool, chain) && InStep(pool, chain, zeroForOne, s)
    requires var n := NextInitializedTick(chain, s.tick, pool.tickSpacing, zeroForOne);
      && MIN_TICK <= n.next <= MAX_TICK
      && (if zeroForOne then chain.priceAt(n.next) < price <= s.price else s.price <= price < chain.priceAt(n.next))
    requires TickAtSqrtPrice(chain, price).Ok?
    requires zeroForOne && s.tick < MAX_TICK ==> price < chain.priceAt(s.tick + 1)
    ensures LiquidityAt(chain, pool.tickSpacing, TickAtSqrtPrice(chain, price).value) == s.liquidity
  {
    var n := NextInitializedTick(chain, s.tick, pool.tickSpacing, zeroForOne);
    NextTickSide(chain, s.tick, pool.tickSpacing, zeroForOne);
    NothingSkipped(chain, s.tick, pool.tickSpacing, zeroForOne);
    TickIsGreatest(chain, price);
    hide NextInitializedTick, TickAtSqrtPrice, LiquidityAt, InitializedAt;
    var tick := TickAtSqrtPrice(chain, price).value;
    if zeroForOne {
      SameLiquidity(chain, pool.tickSpacing, tick, s.tick);
    } else {
      SameLiquidity(chain, pool.tickSpacing, s.tick, tick);
    }
  }

  /** A round that reached its target leaves the liquidity of the tick it goes on from. It fails exactly at an
      initialized tick, after 32 others or when nothing is in range beyond it. */
  lemma CrossedLiquidity(pool: PoolState, chain: Reads, zeroForOne: bool, s: Swap, moved: Swap, n: NextTick)
    requires pool.tickSpacing > 0 && LiquidityFits(chain, pool.tickSpacing)
    requires moved.tick == s.tick && moved.liquidity == s.liquidity == LiquidityAt(chain, pool.tickSpacing, s.tick)
    requires n == NextInitializedTick(chain, s.tick, pool.tickSpacing, zeroForOne) && MIN_TICK <= n.next
    ensures var r, beyond := Cross(pool, chain, zeroForOne, moved, n), if zeroForOne then n.next - 1 else n.next;
      var liquidity := LiquidityAt(chain, pool.tickSpacing, beyond);
      && (r.Ok? ==> r.value.tick == beyond && r.value.liquidity == liquidity)
      && (r.Err? <==> n.initialized && (moved.crossings >= 32 || liquidity == 0))
      && (r.Err? ==> r.error == if moved.crossings >= 32
            then TooManyTickCrossings(moved.crossings + 1) else LiquidityExhausted(moved.remaining))
  {
    NextTickSide(chain, s.tick, pool.tickSpacing, zeroForOne);
    NothingSkipped(chain, s.tick, pool.tickSpacing, zeroForOne);
    hide NextInitializedTick, InitializedAt;
    var spacing := pool.tickSpacing;
    if zeroForOne {
      SameLiquidity(chain, spacing, n.next, s.tick);
    } else {
      SameLiquidity(chain, spacing, s.tick, n.next - 1);
    }
    assert 0 <= LiquidityAt(chain, spacing, n.next) < U128 && 0 <= LiquidityAt(chain, spacing, n.next - 1) < U128;
  }

  /** What a round does to the loop's other variables, by the step it took. */
  ghost predicate Accounts(pool: PoolState, chain: Reads, zeroForOne: bool, s: Swap, next: Swap, step: SwapStep)
    requires pool.tickSpacing > 0
  {
    var n := NextInitializedTick(chain, s.tick, pool.tickSpacing, zeroForOne);
    && Figures(s.price, chain.priceAt(n.next), s.liquidity, s.remaining, pool.fee, step)
    && next.price == step.sqrtNext && next.steps == s.steps + 1
    && next.remaining == s.remaining - step.amountIn - step.feeAmount
    && next.amountOut == s.amountOut + step.amountOut
    && next.crossings == s.crossings + (if step.sqrtNext == chain.priceAt(n.next) && n.initialized then 1 else 0)
  }

  /** A successful round, in either direction. It accounts for what it takes and pays by the step's figures. While
      something is left to sell the loop stands in step afterwards: its liquidity is that of its tick. The last round
      ends so too, unless it did not move; then the liquidity is that of the tick it started from. */
  lemma RoundLiquidity(pool: PoolState, chain: Reads, zeroForOne: bool, s: Swap) returns (step: SwapStep)
    requires Consistent(pool, chain) && LiquidityFits(chain, pool.tickSpacing)
    requires InStep(pool, chain, zeroForOne, s)
    requires Advance(pool, chain, zeroForOne, s).Ok?
    ensures var next := Advance(pool, chain, zeroForOne, s).value;
      && Accounts(pool, chain, zeroForOne, s, next, step)
      && (next.remaining > 0 ==> InStep(pool, chain, zeroForOne, next))
      && (|| next.liquidity == LiquidityAt(chain, pool.tickSpacing, next.tick)
          || (Unmoved(chain, zeroForOne, s, next) && next.liquidity == LiquidityAt(chain, pool.tickSpacing, s.tick)))
  {
    hide ComputeSwapStep, NextInitializedTick, LessFee, Cost, Cross, TickAtSqrtPrice, Advance, Figures, LiquidityAt,
      LiquidityFits;
    var n := NextInitializedTick(chain, s.tick, pool.tickSpacing, zeroForOne);
    RoundStep(pool, chain, zeroForOne, s);
    RoundIs(pool, chain, zeroForOne, s);
    TargetSide(pool, chain, zeroForOne, s, n);
    var target := chain.priceAt(n.next);
    StepSound(s.price, target, s.liquidity, s.remaining, pool.fee);
    StepFigures(s.price, target, s.liquidity, s.remaining, pool.fee);
    step := ComputeSwapStep(s.price, target, s.liquidity, s.remaining, pool.fee).value;
    if step.sqrtNext == target {
      CrossedLiquidity(pool, chain, zeroForOne, s, Moved(s, step), n);
      CrossOnTrack(pool, chain, zeroForOne, Moved(s, step), n);
      CrossCounts(pool, chain, zeroForOne, Moved(s, step), n);
    } else {
      if !(zeroForOne && s.tick < MAX_TICK && step.sqrtNext == chain.priceAt(s.tick + 1)) {
        PartialTick(pool, chain, zeroForOne, s, step.sqrtNext);
      }
    }
  }

  lemma CrossCounts(pool: PoolState, chain: Reads, zeroForOne: bool, moved: Swap, n: NextTick)
    requires Cross(pool, chain, zeroForOne, moved, n).Ok?
    ensures var next := Cross(pool, chain, zeroForOne, moved, n).value;
      && next.price == moved.price && next.remaining == moved.remaining && next.amountOut == moved.amountOut
      && next.steps == moved.steps && next.crossings == moved.crossings + (if n.initialized then 1 else 0)
      && next.tick == (if zeroForOne then n.next - 1 else n.next)
  {
  }

  // ----- the round that does not move

  /** Prices rise strictly from tick to tick, as real ones do. */
  ghost predicate PricesClimb(chain: Reads)
  {
    forall t, u :: MIN_TICK <= t < u <= MAX_TICK ==> chain.priceAt(t) < chain.priceAt(u)
  }

  /** After a round that stops short without moving, the liquidity is that of the tick it ends on if and only if that
      tick, which it had just crossed, carries no net liquidity. */
  lemma UnmovedExactly(pool: PoolState, chain: Reads, s: Swap)
    requires Consistent(pool, chain) && LiquidityFits(chain, pool.tickSpacing) && PricesClimb(chain)
    requires InStep(pool, chain, true, s) && Advance(pool, chain, true, s).Ok?
    requires var next := Advance(pool, chain, true, s).value;
      && Unmoved(chain, true, s, next)
      && next.price != chain.priceAt(NextInitializedTick(chain, s.tick, pool.tickSpacing, true).next)
    ensures var next := Advance(pool, chain, true, s).value;
      && next.tick == s.tick + 1
      && (next.liquidity == LiquidityAt(chain, pool.tickSpacing, next.tick) <==>
          !InitializedAt(chain, pool.tickSpacing, next.tick) || chain.liquidityNet(next.tick) == 0)
  {
    hide ComputeSwapStep, NextInitializedTick, TickAtSqrtPrice, Advance, InitializedAt;
    RoundStep(pool, chain, true, s);
    RoundIs(pool, chain, true, s);
    TargetSide(pool, chain, true, s, NextInitializedTick(chain, s.tick, pool.tickSpacing, true));
    TickIsGreatest(chain, s.price);
    assert chain.priceAt(s.tick + 1) <= s.price;
    if s.tick + 2 <= MAX_TICK {
      assert chain.priceAt(s.tick + 1) < chain.priceAt(s.tick + 2);
    }
  }

  // ----- the whole loop

  function Opening(pool: PoolState, amountIn: nat): Swap
  {
    Swap(pool.sqrtPrice, pool.tick, pool.liquidity, amountIn, 0, 0, 0)
  }

  /** The loop's variables after n rounds, or fewer when it is done. */
  function Rounds(pool: PoolState, chain: Reads, zeroForOne: bool, s: Swap, n: nat): QuoteResult<Swap>
    requires pool.fee <= MAX_SWAP_FEE && pool.tickSpacing > 0
  {
    if n == 0 then Ok(s)
    else
      var r :- Rounds(pool, chain, zeroForOne, s, n - 1);
      if r.steps < MAX_LOOP_STEPS && r.remaining > 0 then Advance(pool, chain, zeroForOne, r) else Ok(r)
  }

  function Taken(): SwapStep -> int { (step: SwapStep) => step.amountIn + step.feeAmount }

  function Paid(): SwapStep -> int { (step: SwapStep) => step.amountOut }

  /** A run of rounds: each starts in step with something to sell, and accounts for the next one's start. */
  ghost predicate Trace(pool: PoolState, chain: Reads, zeroForOne: bool, states: seq<Swap>, steps: seq<SwapStep>)
    requires pool.tickSpacing > 0
  {
    && |states| == |steps| + 1
    && forall k :: 0 <= k < |steps| ==>
         && InStep(pool, chain, zeroForOne, states[k]) && states[k].remaining > 0
         && Accounts(pool, chain, zeroForOne, states[k], states[k + 1], steps[k])
  }

  /** What a run adds up to. */
  predicate Traded(s: Swap, r: Swap, steps: seq<SwapStep>)
  {
    && r.steps == s.steps + |steps|
    && r.remaining == s.remaining - SumBy(steps, Taken())
    && r.amountOut == s.amountOut + SumBy(steps, Paid())
  }

  /** However many rounds a quote takes, each starts at the liquidity of its tick and goes by the figures of its
      step. */
  lemma {:induction false} LoopLiquidity(pool: PoolState, chain: Reads, zeroForOne: bool, amountIn: nat, n: nat)
    returns (states: seq<Swap>, steps: seq<SwapStep>)
    requires Consistent(pool, chain) && LiquidityFits(chain, pool.tickSpacing)
    requires pool.liquidity == LiquidityAt(chain, pool.tickSpacing, pool.tick)
    requires Rounds(pool, chain, zeroForOne, Opening(pool, amountIn), n).Ok?
    ensures Trace(pool, chain, zeroForOne, states, steps)
    ensures var r := Rounds(pool, chain, zeroForOne, Opening(pool, amountIn), n).value;
      && states[0] == Opening(pool, amountIn) && states[|steps|] == r
      && Traded(Opening(pool, amountIn), r, steps)
      && (r.remaining > 0 ==> InStep(pool, chain, zeroForOne, r))
  {
    hide Advance, LiquidityAt, LiquidityFits, Figures, Accounts;
    if n == 0 {
      states, steps := [Opening(pool, amountIn)], [];
    } else {
      states, steps := LoopLiquidity(pool, chain, zeroForOne, amountIn, n - 1);
      var r := Rounds(pool, chain, zeroForOne, Opening(pool, amountIn), n - 1).value;
      if r.steps < MAX_LOOP_STEPS && r.remaining > 0 {
        var step := RoundLiquidity(pool, chain, zeroForOne, r);
        var next := Advance(pool, chain, zeroForOne, r).value;
        OneMoreStep(pool, chain, zeroForOne, states, steps, next, step);
        states, steps := states + [next], steps + [step];
      }
    }
  }

  lemma OneMoreStep(pool: PoolState, chain: Reads, zeroForOne: bool, states: seq<Swap>, steps: seq<SwapStep>,
      next: Swap, step: SwapStep)
    requires pool.tickSpacing > 0 && Trace(pool, chain, zeroForOne, states, steps)
    requires InStep(pool, chain, zeroForOne, states[|steps|]) && states[|steps|].remaining > 0
    requires Accounts(pool, chain, zeroForOne, states[|steps|], next, step)
    requires Traded(states[0], states[|steps|], steps)
    ensures Trace(pool, chain, zeroForOne, states + [next], steps + [step])
    ensures Traded(states[0], next, steps + [step])
  {
    hide InStep, Figures;
    assert (steps + [step])[..|steps|] == steps;
  }

  /** The first of n + 1 rounds, and the rest. */
  lemma {:induction false} FirstRound(pool: PoolState, chain: Reads, zeroForOne: bool, s: Swap, n: nat)
    requires pool.fee <= MAX_SWAP_FEE && pool.tickSpacing > 0
    requires s.steps < MAX_LOOP_STEPS && s.remaining > 0
    ensures Rounds(pool, chain, zeroForOne, s, n + 1) ==
      match Advance(pool, chain, zeroForOne, s)
      case Ok(next) => Rounds(pool, chain, zeroForOne, next, n)
      case Err(e) => Err(e)
  {
    hide Advance;
    if n == 0 {
      assert Rounds(pool, chain, zeroForOne, s, 0) == Ok(s);
    } else {
      FirstRound(pool, chain, zeroForOne, s, n - 1);
    }
  }

  lemma {:induction false} DoneStays(pool: PoolState, chain: Reads, zeroForOne: bool, s: Swap, n: nat)
    requires pool.fee <= MAX_SWAP_FEE && pool.tickSpacing > 0
    requires s.steps >= MAX_LOOP_STEPS || s.remaining == 0
    ensures Rounds(pool, chain, zeroForOne, s, n) == Ok(s)
  {
    hide Advance;
    if n > 0 {
      DoneStays(pool, chain, zeroForOne, s, n - 1);
    }
  }

  /** The loop is its rounds, and the check that everything was sold. */
  lemma {:induction false} FinishIsRounds(pool: PoolState, chain: Reads, zeroForOne: bool, s: Swap)
    requires pool.fee <= MAX_SWAP_FEE && pool.tickSpacing > 0 && s.steps <= MAX_LOOP_STEPS
    ensures Finish(pool, chain, zeroForOne, s) ==
      match Rounds(pool, chain, zeroForOne, s, MAX_LOOP_STEPS - s.steps)
      case Ok(r) =>
        if r.remaining != 0 then Err(LiquidityExhausted(r.remaining)) else Ok(Quote(r.amountOut, r.crossings, r.steps))
      case Err(e) => Err(e)
    decreases MAX_LOOP_STEPS - s.steps
  {
    hide Advance, Rounds;
    if s.steps < MAX_LOOP_STEPS && s.remaining > 0 {
      FirstRound(pool, chain, zeroForOne, s, MAX_LOOP_STEPS - s.steps - 1);
      if Advance(pool, chain, zeroForOne, s).Ok? {
        AdvanceCounts(pool, chain, zeroForOne, s);
        FinishIsRounds(pool, chain, zeroForOne, Advance(pool, chain, zeroForOne, s).value);
      }
    } else {
      DoneStays(pool, chain, zeroForOne, s, MAX_LOOP_STEPS - s.steps);
    }
  }

  /** A quote is a run of rounds that sells exactly its input: the steps, with their fees, add up to the input, and
      their payouts to the quote. */
  lemma QuoteAddsUp(pool: PoolState, chain: Reads, zeroForOne: bool, amountIn: nat)
    returns (states: seq<Swap>, steps: seq<SwapStep>)
    requires Consistent(pool, chain) && LiquidityFits(chain, pool.tickSpacing)
    requires pool.liquidity == LiquidityAt(chain, pool.tickSpacing, pool.tick)
    requires QuoteExactIn(pool, chain, zeroForOne, amountIn).Ok?
    ensures Trace(pool, chain, zeroForOne, states, steps) && states[0] == Opening(pool, amountIn)
    ensures var q := QuoteExactIn(pool, chain, zeroForOne, amountIn).value;
      && |steps| == q.steps <= MAX_LOOP_STEPS && q.crossings == states[|steps|].crossings
      && SumBy(steps, Taken()) == amountIn && SumBy(steps, Paid()) == q.amountOut
  {
    hide Finish, Rounds, LiquidityAt, Trace;
    FinishIsRounds(pool, chain, zeroForOne, Opening(pool, amountIn));
    states, steps := LoopLiquidity(pool, chain, zeroForOne, amountIn, MAX_LOOP_STEPS);
    StepsBounded(pool, chain, zeroForOne, Opening(pool, amountIn), MAX_LOOP_STEPS);
  }

  lemma {:induction false} StepsBounded(pool: PoolState, chain: Reads, zeroForOne: bool, s: Swap, n: nat)
    requires pool.fee <= MAX_SWAP_FEE && pool.tickSpacing > 0 && s.steps <= MAX_LOOP_STEPS
    requires Rounds(pool, chain, zeroForOne, s, n).Ok?
    ensures Rounds(pool, chain, zeroForOne, s, n).value.steps <= MAX_LOOP_STEPS
  {
    hide Advance;
    if n > 0 {
      StepsBounded(pool, chain, zeroForOne, s, n - 1);
      var r := Rounds(pool, chain, zeroForOne, s, n - 1).value;
      if r.steps < MAX_LOOP_STEPS && r.remaining > 0 {
        AdvanceCounts(pool, chain, zeroForOne, r);
      }
    }
  }

  /** Crossing a tick one way and then the other gives the liquidity back. */
  lemma ThereAndBack(pool: PoolState, chain: Reads, zeroForOne: bool, s: Swap, n: NextTick)
    requires s.liquidity < U128 && Cross(pool, chain, zeroForOne, s, n).Ok?
    requires Cross(pool, chain, !zeroForOne, Cross(pool, chain, zeroForOne, s, n).value, n).Ok?
    ensures var there := Cross(pool, chain, zeroForOne, s, n).value;
      Cross(pool, chain, !zeroForOne, there, n).value.liquidity == s.liquidity
  {
    var net := chain.liquidityNet(n.next);
    Unapplied(s.liquidity, net);
    Unapplied(s.liquidity, -net);
    hide ApplyLiquidity;
  }

  lemma Unapplied(liquidity: nat, delta: int)
    requires liquidity < U128
    ensures ApplyLiquidity(ApplyLiquidity(liquidity, delta), -delta) == liquidity
  {
  }

  // ----- a last round out of step

  /** Prices one apart, and two initialized ticks: 7 from tick -60, 5 more from tick 0. */
  function TwoTicks(): Reads
  {
    Reads((word: int, bit: nat) => (word == 0 && bit == 0) || (word == -1 && bit == 255),
      (tick: int) => if tick == 0 then 5 else if tick == -60 then 7 else 0,
      (tick: int) =>
        if tick <= MIN_TICK then MIN_SQRT_PRICE
        else if tick >= MAX_TICK then MAX_SQRT_PRICE
        else MIN_SQRT_PRICE + (tick - MIN_TICK))
  }

  /** Just below tick 0, which has been crossed downward, with one unit left to sell. */
  function BelowZero(): Swap { Swap(TwoTicks().priceAt(0), -1, 7, 1, 0, 1, 1) }

  function ThinPool(): PoolState { PoolState(TwoTicks().priceAt(0), 0, 3000, 60, 12) }

  lemma TwoTicksLiquidity(tick: int)
    ensures LiquidityAt(TwoTicks(), 60, tick) == if tick < -60 then 0 else if tick < 0 then 7 else 12
    decreases tick - MIN_TICK
  {
    if tick >= MIN_TICK {
      TwoTicksLiquidity(tick - 1);
    }
  }

  lemma BelowZeroInStep()
    ensures Consistent(ThinPool(), TwoTicks()) && PricesClimb(TwoTicks()) && LiquidityFits(TwoTicks(), 60)
    ensures InStep(ThinPool(), TwoTicks(), true, BelowZero())
  {
    hide NextInitializedTick;
    forall t: int ensures 0 <= LiquidityAt(TwoTicks(), 60, t) < U128 {
      TwoTicksLiquidity(t);
    }
    TwoTicksLiquidity(-1);
    hide LiquidityAt;
  }

  lemma NextBelowZero()
    ensures NextInitializedTick(TwoTicks(), -1, 60, true) == NextTick(-60, true)
  {
    assert Highest(Word(TwoTicks(), -1), 255) == Some(255);
  }

  /** One unit, all of it fee, moves no price that lies above its target. */
  lemma OneUnitStays(s: nat, t: nat, liquidity: nat)
    requires 0 < t < s < U160 && 0 < liquidity < 0x1_0000_0000
    ensures var r := ComputeSwapStep(s, t, liquidity, 1, 3000);
      r.Ok? && r.value.sqrtNext == s && r.value.amountIn == 0 && r.value.feeAmount == 1
  {
    hide Times, Quotient, MulDiv, MulDivRoundingUp, DivRoundingUp, CeilDiv;
    MulDivIs(1, MAX_SWAP_FEE - 3000, MAX_SWAP_FEE);
    PayoutDown(s, s, s, liquidity);
    PositiveCost(s, t, liquidity);
    hide Payout, Cost;
  }

  lemma PositiveCost(s: nat, t: nat, liquidity: nat)
    requires 0 < t < s < U160 && 0 < liquidity < 0x1_0000_0000
    ensures Cost(s, t, liquidity).Ok? && Cost(s, t, liquidity).value > 0
  {
    var n := liquidity * Q96;
    hide Times, Quotient, MulDiv, MulDivRoundingUp, DivRoundingUp, CeilDiv;
    MulMono2(1, n, 1, s - t);
    MulMono(s - t, s, n);
    FloorDiv(n * (s - t), s, U256);
    MulMono(n, U256, s);
    MulDivUpIsCeil(n, s - t, s);
    var whole := CeilDiv(n * (s - t), s);
    CeilingDiv(n * (s - t), s, 0);
    DivRoundingUpIsCeil(whole, t);
    CeilingDiv(whole, t, 0);
  }

  /** The one unit goes to the fee and the round does not move: it ends on tick 0, whose liquidity is 12, with 7. */
  lemma LastRoundOutOfStep()
    ensures Consistent(ThinPool(), TwoTicks()) && LiquidityFits(TwoTicks(), 60)
    ensures InStep(ThinPool(), TwoTicks(), true, BelowZero())
    ensures var r := Advance(ThinPool(), TwoTicks(), true, BelowZero());
      r.Ok? && r.value.tick == 0 && r.value.liquidity == 7 && LiquidityAt(TwoTicks(), 60, 0) == 12
  {
    hide ComputeSwapStep, NextInitializedTick, TickAtSqrtPrice, LiquidityAt, Payout, Advance, InStep, LiquidityFits;
    BelowZeroInStep();
    NextBelowZero();
    TwoTicksLiquidity(0);
    var s := BelowZero();
    OneUnitStays(s.price, TwoTicks().priceAt(-60), 7);
    TickIsGreatest(TwoTicks(), s.price);
    assert TwoTicks().priceAt(0) <= s.price < TwoTicks().priceAt(1);
    RoundIs(ThinPool(), TwoTicks(), true, s);
  }
}
