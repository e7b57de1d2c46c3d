/** The exact-input quote across ticks (solver/src/v3math.ts, from the tick search to quoteExactIn). */
module V3Quote {
  import opened Common
  import opened V3Math

  const MIN_TICK: int := -887272
  const MAX_TICK: int := 887272
  const MIN_SQRT_PRICE: nat := 4295128739
  const MAX_SQRT_PRICE: nat := 1461446703485210103287273052203988822378723970342
  const DYNAMIC_FEE_FLAG: nat := 0x800000
  const MAX_TICK_CROSSINGS: nat := 32
  const MAX_LOOP_STEPS: nat := 128

  /** What the loop reads: one flag per bit of each bitmap word, the net liquidity at a tick, and a tick's price. */
  datatype Reads = Reads(bitmap: (int, nat) -> bool, liquidityNet: int -> int, priceAt: int -> nat)

  datatype PoolState = PoolState(sqrtPrice: nat, tick: int, fee: nat, tickSpacing: int, liquidity: nat)

  function SqrtPriceAtTick(chain: Reads, tick: int): QuoteResult<nat>
  {
    if tick < MIN_TICK || tick > MAX_TICK then Err(InvalidTick(tick)) else Ok(chain.priceAt(tick))
  }

  // ----- the tick of a price

  /** The bisection for the greatest tick in [lo, hi] whose price does not exceed the given one. */
  function TickSearch(chain: Reads, price: nat, lo: int, hi: int): int
    requires lo <= hi
    decreases hi - lo
  {
    if lo == hi then lo
    else
      var mid := (lo + hi + 1) / 2;
      if chain.priceAt(mid) <= price then TickSearch(chain, price, mid, hi) else TickSearch(chain, price, lo, mid - 1)
  }

  function TickAtSqrtPrice(chain: Reads, price: nat): QuoteResult<int>
  {
    if price < MIN_SQRT_PRICE || price >= MAX_SQRT_PRICE then Err(InvalidSqrtPrice)
    else Ok(TickSearch(chain, price, MIN_TICK, MAX_TICK - 1))
  }

  method TickLoop(chain: Reads, price: nat) returns (r: QuoteResult<int>)
    ensures r == TickAtSqrtPrice(chain, price)
  {
    if price < MIN_SQRT_PRICE || price >= MAX_SQRT_PRICE {
      return Err(InvalidSqrtPrice);
    }
    var lo, hi := MIN_TICK, MAX_TICK - 1;
    while lo < hi
      invariant lo <= hi
      invariant TickSearch(chain, price, MIN_TICK, MAX_TICK - 1) == TickSearch(chain, price, lo, hi)
      decreases hi - lo
    {
      var mid := (lo + hi + 1) / 2;
      if chain.priceAt(mid) <= price { lo := mid; } else { hi := mid - 1; }
    }
    r := Ok(lo);
  }

  /** Prices rise with ticks, and span exactly the legal range. */
  ghost predicate PricesRise(chain: Reads)
  {
    && (forall t, u :: MIN_TICK <= t <= u <= MAX_TICK ==> chain.priceAt(t) <= chain.priceAt(u))
    && chain.priceAt(MIN_TICK) == MIN_SQRT_PRICE && chain.priceAt(MAX_TICK) == MAX_SQRT_PRICE
  }

  lemma {:induction false} TickSearchEdge(chain: Reads, price: nat, lo: int, hi: int)
    requires lo <= hi && chain.priceAt(lo) <= price < chain.priceAt(hi + 1)
    ensures var t := TickSearch(chain, price, lo, hi);
      lo <= t <= hi && chain.priceAt(t) <= price < chain.priceAt(t + 1)
    decreases hi - lo
  {
    if lo < hi {
      var mid := (lo + hi + 1) / 2;
      if chain.priceAt(mid) <= price {
        TickSearchEdge(chain, price, mid, hi);
      } else {
        TickSearchEdge(chain, price, lo, mid - 1);
      }
    }
  }

  /** Inside the legal range the search finds the greatest tick at or below the price. */
  lemma TickIsGreatest(chain: Reads, price: nat)
    requires PricesRise(chain) && MIN_SQRT_PRICE <= price < MAX_SQRT_PRICE
    ensures TickAtSqrtPrice(chain, price).Ok?
    ensures var tick := TickAtSqrtPrice(chain, price).value;
      && MIN_TICK <= tick < MAX_TICK
      && forall t :: MIN_TICK <= t <= MAX_TICK ==> (chain.priceAt(t) <= price <==> t <= tick)
  {
    TickSearchEdge(chain, price, MIN_TICK, MAX_TICK - 1);
  }

  // ----- the next initialized tick

  /** Division that truncates, corrected to round down. */
  function Compress(tick: int, spacing: int): int
    requires spacing > 0
  {
    TruncDiv(tick, spacing) - (if tick < 0 && tick % spacing != 0 then 1 else 0)
  }

  lemma CompressFloors(tick: int, spacing: int)
    requires spacing > 0
    ensures Compress(tick, spacing) * spacing <= tick < Compress(tick, spacing) * spacing + spacing
  {
    FloorDiv(tick, spacing, 0);
    if tick < 0 {
      NegatedDiv(tick, spacing);
    }
  }

  /** Dividing the negation rounds the other way. */
  lemma NegatedDiv(a: int, d: int)
    requires d > 0
    ensures (-a) / d == -(a / d) - (if a % d == 0 then 0 else 1)
  {
    var q, r := a / d, a % d;
    assert a == q * d + r;
    assert (-q) * d == -(q * d);
    Spread(-q, -1, d);
    if r == 0 {
      FloorIs(-a, d, -q);
    } else {
      FloorIs(-a, d, -q - 1);
    }
  }

  lemma FloorIs(a: int, d: int, q: int)
    requires d > 0 && q * d <= a < q * d + d
    ensures a / d == q
  {
    FloorDiv(a, d, q);
    FloorDiv(a, d, q + 1);
    Spread(q, 1, d);
  }

  /** The compressed tick k is initialized. A word holds 256 of them, and word and bit round down for negative ticks. */
  predicate Initialized(chain: Reads, k: int) { chain.bitmap(k / 256, k % 256) }

  /** The highest set bit at or below `bit`. */
  function Highest(word: nat -> bool, bit: nat): Option<nat>
  {
    if word(bit) then Some(bit) else if bit == 0 then None else Highest(word, bit - 1)
  }

  /** The lowest set bit from `bit` up. */
  function Lowest(word: nat -> bool, bit: nat): Option<nat>
    requires bit < 256
    decreases 256 - bit
  {
    if word(bit) then Some(bit) else if bit == 255 then None else Lowest(word, bit + 1)
  }

  lemma {:induction false} HighestExact(word: nat -> bool, bit: nat)
    ensures match Highest(word, bit)
      case Some(j) => j <= bit && word(j) && forall i :: j < i <= bit ==> !word(i)
      case None => forall i :: 0 <= i <= bit ==> !word(i)
  {
    if !word(bit) && bit > 0 { HighestExact(word, bit - 1); }
  }

  lemma {:induction false} LowestExact(word: nat -> bool, bit: nat)
    requires bit < 256
    ensures match Lowest(word, bit)
      case Some(j) => bit <= j < 256 && word(j) && forall i :: bit <= i < j ==> !word(i)
      case None => forall i :: bit <= i < 256 ==> !word(i)
    decreases 256 - bit
  {
    if !word(bit) && bit < 255 { LowestExact(word, bit + 1); }
  }

  function Word(chain: Reads, wordPos: int): nat -> bool { (bit: nat) => chain.bitmap(wordPos, bit) }

  /** `next` counts in compressed ticks here; the tick itself is spacing times that. */
  datatype NextTick = NextTick(next: int, initialized: bool)

  function NextCompressed(chain: Reads, compressed: int, lte: bool): NextTick
  {
    if lte then
      var bit := compressed % 256;
      match Highest(Word(chain, compressed / 256), bit)
      case Some(j) => NextTick(compressed - (bit - j), true)
      case None => NextTick(compressed - bit, false)
    else
      var bit := (compressed + 1) % 256;
      match Lowest(Word(chain, (compressed + 1) / 256), bit)
      case Some(j) => NextTick(compressed + 1 + (j - bit), true)
      case None => NextTick(compressed + 1 + (255 - bit), false)
  }

  function NextInitializedTick(chain: Reads, tick: int, spacing: int, lte: bool): NextTick
    requires spacing > 0
  {
    var n := NextCompressed(chain, Compress(tick, spacing), lte);
    NextTick(n.next * spacing, n.initialized)
  }

  /** The search stays in its word, skips no initialized tick on the way, and says whether it stopped at one. */
  lemma NextCompressedExact(chain: Reads, c: int, lte: bool)
    ensures var n := NextCompressed(chain, c, lte);
      && (if lte then n.next <= c else c < n.next)
      && n.initialized == Initialized(chain, n.next)
      && (forall k :: (if lte then n.next < k <= c else c < k < n.next) ==> !Initialized(chain, k))
  {
    var n := NextCompressed(chain, c, lte);
    if lte {
      HighestExact(Word(chain, c / 256), c % 256);
      forall k | n.next <= k <= c ensures k / 256 == c / 256 && k % 256 == c % 256 - (c - k) {
        SameWord(c, k);
      }
      assert n.initialized ==> Initialized(chain, n.next);
      if !n.initialized { assert !Word(chain, c / 256)(0); }
      forall k | n.next < k <= c ensures !Initialized(chain, k) {
        assert !Word(chain, c / 256)(k % 256);
      }
    } else {
      LowestExact(Word(chain, (c + 1) / 256), (c + 1) % 256);
      forall k | c < k <= n.next ensures k / 256 == (c + 1) / 256 && k % 256 == (c + 1) % 256 + (k - c - 1) {
        SameWord(k, c + 1);
      }
      if !n.initialized { assert !Word(chain, (c + 1) / 256)(255); }
      forall k | c < k < n.next ensures !Initialized(chain, k) {
        assert !Word(chain, (c + 1) / 256)(k % 256);
      }
    }
  }

  lemma SameWord(hi: int, lo: int)
    requires lo <= hi
    requires hi - lo <= hi % 256 || hi - lo <= 255 - lo % 256
    ensures lo / 256 == hi / 256 && lo % 256 == hi % 256 - (hi - lo)
  {
  }

  /** Downward the next tick is at or below the current one, upward it is above. */
  lemma NextTickSide(chain: Reads, tick: int, spacing: int, lte: bool)
    requires spacing > 0
    ensures var n := NextInitializedTick(chain, tick, spacing, lte); if lte then n.next <= tick else tick < n.next
  {
    var c := Compress(tick, spacing);
    CompressFloors(tick, spacing);
    NextCompressedExact(chain, c, lte);
    hide Compress, NextCompressed, Initialized;
    var n := NextCompressed(chain, c, lte);
    if lte {
      MulMono(n.next, c, spacing);
    } else {
      MulMono(c + 1, n.next, spacing);
      Spread(c, 1, spacing);
    }
  }

  // ----- the quote

  /** Adding a net liquidity, wrapping at 2^128. */
  function ApplyLiquidity(liquidity: nat, delta: int): nat { (liquidity + delta) % U128 }

  /** The loop's variables. */
  datatype Swap = Swap(price: nat, tick: int, liquidity: nat, remaining: nat, amountOut: nat, crossings: nat,
    steps: nat)

  datatype Quote = Quote(amountOut: nat, crossings: nat, steps: nat)

  /** Where the loop goes after a step that ended at `next`. */
  function Cross(pool: PoolState, chain: Reads, zeroForOne: bool, s: Swap, n: NextTick): QuoteResult<Swap>
  {
    if n.initialized then
      var net := chain.liquidityNet(n.next);
      var liquidity := ApplyLiquidity(s.liquidity, if zeroForOne then -net else net);
      if s.crossings + 1 > MAX_TICK_CROSSINGS then Err(TooManyTickCrossings(s.crossings + 1))
      else if liquidity == 0 then Err(LiquidityExhausted(s.remaining))
      else Ok(s.(liquidity := liquidity, crossings := s.crossings + 1,
        tick := if zeroForOne then n.next - 1 else n.next))
    else Ok(s.(tick := if zeroForOne then n.next - 1 else n.next))
  }

  /** A step never takes more than what remains. */
  lemma StepWithin(s: nat, t: nat, liquidity: nat, remaining: nat, feePips: nat)
    requires feePips <= MAX_SWAP_FEE
    requires ComputeSwapStep(s, t, liquidity, remaining, feePips).Ok?
    ensures var step := ComputeSwapStep(s, t, liquidity, remaining, feePips).value;
      && step.amountIn + step.feeAmount <= remaining
      && (step.sqrtNext != t ==> step.amountIn + step.feeAmount == remaining)
  {
    hide LessFee, FeeOn, Cost, Payout, NextFromInput;
    LessFeeWithin(remaining, feePips);
    if LessFee(remaining, feePips).value >= Cost(s, t, liquidity).value {
      FeeFits(remaining, feePips, Cost(s, t, liquidity).value);
    }
  }

  /** One round of the loop. */
  function Advance(pool: PoolState, chain: Reads, zeroForOne: bool, s: Swap): QuoteResult<Swap>
    requires pool.fee <= MAX_SWAP_FEE && pool.tickSpacing > 0
  {
    var n := NextInitializedTick(chain, s.tick, pool.tickSpacing, zeroForOne);
    var target :- SqrtPriceAtTick(chain, n.next);
    var step :- ComputeSwapStep(s.price, target, s.liquidity, s.remaining, pool.fee);
    StepWithin(s.price, target, s.liquidity, s.remaining, pool.fee);
    var moved := s.(price := step.sqrtNext, remaining := s.remaining - (step.amountIn + step.feeAmount),
                    amountOut := s.amountOut + step.amountOut, steps := s.steps + 1);
    if step.sqrtNext == target then Cross(pool, chain, zeroForOne, moved, n)
    else
      var tick :- TickAtSqrtPrice(chain, step.sqrtNext);
      Ok(moved.(tick := tick))
  }

  lemma AdvanceCounts(pool: PoolState, chain: Reads, zeroForOne: bool, s: Swap)
    requires pool.fee <= MAX_SWAP_FEE && pool.tickSpacing > 0
    requires Advance(pool, chain, zeroForOne, s).Ok?
    ensures var next := Advance(pool, chain, zeroForOne, s).value;
      next.steps == s.steps + 1 && next.amountOut >= s.amountOut && next.crossings >= s.crossings
  {
    hide ComputeSwapStep, NextInitializedTick;
  }

  /** The rest of the loop, and the check after it. */
  function Finish(pool: PoolState, chain: Reads, zeroForOne: bool, s: Swap): QuoteResult<Quote>
    requires pool.fee <= MAX_SWAP_FEE && pool.tickSpacing > 0
    decreases MAX_LOOP_STEPS - s.steps
  {
    if s.steps < MAX_LOOP_STEPS && s.remaining > 0 then
      var next :- Advance(pool, chain, zeroForOne, s);
      AdvanceCounts(pool, chain, zeroForOne, s);
      Finish(pool, chain, zeroForOne, next)
    else if s.remaining != 0 then Err(LiquidityExhausted(s.remaining))
    else Ok(Quote(s.amountOut, s.crossings, s.steps))
  }

  function QuoteExactIn(pool: PoolState, chain: Reads, zeroForOne: bool, amountIn: nat): QuoteResult<Quote>
    requires pool.fee <= MAX_SWAP_FEE && pool.tickSpacing > 0
  {
    if pool.sqrtPrice == 0 then Err(PoolNotInitialized)
    else if pool.fee >= DYNAMIC_FEE_FLAG then Err(DynamicFeeUnsupported)
    else Finish(pool, chain, zeroForOne, Swap(pool.sqrtPrice, pool.tick, pool.liquidity, amountIn, 0, 0, 0))
  }

  /** One round, the tick of a partial step found by its own loop. */
  method Round(pool: PoolState, chain: Reads, zeroForOne: bool, s: Swap) returns (r: QuoteResult<Swap>)
    requires pool.fee <= MAX_SWAP_FEE && pool.tickSpacing > 0
    ensures r == Advance(pool, chain, zeroForOne, s)
  {
    hide ComputeSwapStep, NextInitializedTick, TickAtSqrtPrice;
    var n := NextInitializedTick(chain, s.tick, pool.tickSpacing, zeroForOne);
    var target := SqrtPriceAtTick(chain, n.next);
    if target.Err? {
      return Err(target.error);
    }
    var step := ComputeSwapStep(s.price, target.value, s.liquidity, s.remaining, pool.fee);
    if step.Err? {
      return Err(step.error);
    }
    StepWithin(s.price, target.value, s.liquidity, s.remaining, pool.fee);
    var moved := s.(price := step.value.sqrtNext,
      remaining := s.remaining - (step.value.amountIn + step.value.feeAmount),
                    amountOut := s.amountOut + step.value.amountOut, steps := s.steps + 1);
    if step.value.sqrtNext == target.value {
      return Cross(pool, chain, zeroForOne, moved, n);
    }
    var tick := TickLoop(chain, step.value.sqrtNext);
    r := if tick.Err? then Err(tick.error) else Ok(moved.(tick := tick.value));
  }

  /** quoteExactIn's loop. */
  method QuoteLoop(pool: PoolState, chain: Reads, zeroForOne: bool, amountIn: nat) returns (r: QuoteResult<Quote>)
    requires pool.fee <= MAX_SWAP_FEE && pool.tickSpacing > 0
    ensures r == QuoteExactIn(pool, chain, zeroForOne, amountIn)
  {
    if pool.sqrtPrice == 0 {
      return Err(PoolNotInitialized);
    }
    if pool.fee >= DYNAMIC_FEE_FLAG {
      return Err(DynamicFeeUnsupported);
    }
    var s := Swap(pool.sqrtPrice, pool.tick, pool.liquidity, amountIn, 0, 0, 0);
    while s.steps < MAX_LOOP_STEPS && s.remaining > 0
      invariant QuoteExactIn(pool, chain, zeroForOne, amountIn) == Finish(pool, chain, zeroForOne, s)
      decreases MAX_LOOP_STEPS - s.steps
    {
      hide QuoteExactIn, Advance;
      var next := Round(pool, chain, zeroForOne, s);
      if next.Err? {
        return Err(next.error);
      }
      AdvanceCounts(pool, chain, zeroForOne, s);
      s := next.value;
    }
    r := if s.remaining != 0
      then Err(LiquidityExhausted(s.remaining)) else Ok(Quote(s.amountOut, s.crossings, s.steps));
  }

  // ----- less in, less out

  /** A pool as the chain keeps it: prices rise with ticks, the current tick brackets the price, sizes fit. */
  ghost predicate Consistent(pool: PoolState, chain: Reads)
  {
    && pool.fee <= MAX_SWAP_FEE && pool.tickSpacing > 0 && pool.liquidity < U128
    && PricesRise(chain)
    && MIN_TICK <= pool.tick < MAX_TICK
    && MIN_SQRT_PRICE <= pool.sqrtPrice < MAX_SQRT_PRICE
    && chain.priceAt(pool.tick) <= pool.sqrtPrice <= chain.priceAt(pool.tick + 1)
  }

  /** The part of that the loop keeps between rounds, for the direction it moves in. */
  ghost predicate OnTrack(chain: Reads, zeroForOne: bool, s: Swap)
  {
    && s.liquidity < U128
    && MIN_SQRT_PRICE <= s.price <= MAX_SQRT_PRICE
    && (if zeroForOne then
          s.price < MAX_SQRT_PRICE && s.tick <= MAX_TICK && (MIN_TICK <= s.tick ==> chain.priceAt(s.tick) <= s.price)
        else
          MIN_TICK <= s.tick && (s.tick < MAX_TICK ==> s.price <= chain.priceAt(s.tick + 1)))
  }

  lemma PriceInRange(chain: Reads, tick: int)
    requires PricesRise(chain) && MIN_TICK <= tick <= MAX_TICK
    ensures MIN_SQRT_PRICE <= chain.priceAt(tick) <= MAX_SQRT_PRICE
  {
  }

  /** On track, the next target lies on the side the swap moves to. */
  lemma TargetSide(pool: PoolState, chain: Reads, zeroForOne: bool, s: Swap, n: NextTick)
    requires PricesRise(chain) && OnTrack(chain, zeroForOne, s) && pool.tickSpacing > 0
    requires n == NextInitializedTick(chain, s.tick, pool.tickSpacing, zeroForOne) && MIN_TICK <= n.next <= MAX_TICK
    ensures MIN_SQRT_PRICE <= chain.priceAt(n.next) <= MAX_SQRT_PRICE
    ensures if zeroForOne then chain.priceAt(n.next) <= s.price else s.price <= chain.priceAt(n.next)
    ensures if zeroForOne then n.next <= s.tick else s.tick < n.next
  {
    NextTickSide(chain, s.tick, pool.tickSpacing, zeroForOne);
    hide NextInitializedTick;
    PriceInRange(chain, n.next);
  }

  /** A round that reached its target leaves the loop on track. */
  lemma CrossOnTrack(pool: PoolState, chain: Reads, zeroForOne: bool, moved: Swap, n: NextTick)
    requires PricesRise(chain) && MIN_TICK <= n.next <= MAX_TICK && moved.liquidity < U128
    requires moved.price == chain.priceAt(n.next)
    requires zeroForOne ==> moved.price < MAX_SQRT_PRICE
    requires Cross(pool, chain, zeroForOne, moved, n).Ok?
    ensures OnTrack(chain, zeroForOne, Cross(pool, chain, zeroForOne, moved, n).value)
  {
    PriceInRange(chain, n.next);
  }

  /** Crossing looks at nothing that depends on the input still to come. */
  lemma CrossSame(pool: PoolState, chain: Reads, zeroForOne: bool, a: Swap, b: Swap, n: NextTick)
    requires a == b.(remaining := a.remaining, amountOut := a.amountOut)
    requires Cross(pool, chain, zeroForOne, b, n).Ok?
    ensures Cross(pool, chain, zeroForOne, a, n).Ok?
    ensures var x, y := Cross(pool, chain, zeroForOne, a, n).value, Cross(pool, chain, zeroForOne, b, n).value;
      x == y.(remaining := a.remaining, amountOut := a.amountOut) && y.remaining == b.remaining
        && y.amountOut == b.amountOut
  {
  }

  lemma {:induction false} FinishGrows(pool: PoolState, chain: Reads, zeroForOne: bool, s: Swap)
    requires pool.fee <= MAX_SWAP_FEE && pool.tickSpacing > 0
    requires Finish(pool, chain, zeroForOne, s).Ok?
    ensures var q := Finish(pool, chain, zeroForOne, s).value;
      q.amountOut >= s.amountOut && q.crossings >= s.crossings && q.steps >= s.steps
    decreases MAX_LOOP_STEPS - s.steps
  {
    hide Advance;
    if s.steps < MAX_LOOP_STEPS && s.remaining > 0 {
      AdvanceCounts(pool, chain, zeroForOne, s);
      FinishGrows(pool, chain, zeroForOne, Advance(pool, chain, zeroForOne, s).value);
    }
  }

  /** Two swaps at one point of the pool, the first with less left to sell and no more paid out. */
  predicate Behind(a: Swap, b: Swap)
  {
    && a == b.(remaining := a.remaining, amountOut := a.amountOut)
    && a.remaining <= b.remaining && a.amountOut <= b.amountOut
  }

  /** One round from the same point: the lesser swap also gets through, and either both reach the target and the lesser
      is still behind, or the lesser has sold everything and been paid no more. */
  lemma RoundBehind(pool: PoolState, chain: Reads, zeroForOne: bool, a: Swap, b: Swap)
    requires Consistent(pool, chain) && OnTrack(chain, zeroForOne, b) && Behind(a, b)
    requires Advance(pool, chain, zeroForOne, b).Ok?
    ensures Advance(pool, chain, zeroForOne, a).Ok?
    ensures var x, y := Advance(pool, chain, zeroForOne, a).value, Advance(pool, chain, zeroForOne, b).value;
      || (Behind(x, y) && OnTrack(chain, zeroForOne, y))
      || (x.remaining == 0 && x.amountOut <= y.amountOut && x.crossings <= y.crossings && x.steps == y.steps)
  {
    hide ComputeSwapStep, NextInitializedTick, LessFee, Cost, Cross, TickAtSqrtPrice, Advance;
    RoundStep(pool, chain, zeroForOne, b);
    var n := NextInitializedTick(chain, b.tick, pool.tickSpacing, zeroForOne);
    TargetSide(pool, chain, zeroForOne, b, n);
    var target := chain.priceAt(n.next);
    StepMonotone(b.price, target, b.liquidity, a.remaining, b.remaining, pool.fee);
    StepSound(b.price, target, b.liquidity, a.remaining, pool.fee);
    StepSound(b.price, target, b.liquidity, b.remaining, pool.fee);
    var lesser := ComputeSwapStep(b.price, target, b.liquidity, a.remaining, pool.fee).value;
    var greater := ComputeSwapStep(b.price, target, b.liquidity, b.remaining, pool.fee).value;
    RoundIs(pool, chain, zeroForOne, a);
    RoundIs(pool, chain, zeroForOne, b);
    AdvanceCounts(pool, chain, zeroForOne, b);
    if lesser.sqrtNext == target {
      CrossSame(pool, chain, zeroForOne, Moved(a, lesser), Moved(b, greater), n);
      CrossOnTrack(pool, chain, zeroForOne, Moved(b, greater), n);
    } else {
      TickIsGreatest(chain, lesser.sqrtNext);
      if greater.sqrtNext == target {
        CrossSame(pool, chain, zeroForOne, Moved(b, greater), Moved(b, greater), n);
      }
    }
  }

  /** The loop's variables after a step, before it crosses. */
  function Moved(s: Swap, step: SwapStep): Swap
  {
    Swap(step.sqrtNext, s.tick, s.liquidity,
      if step.amountIn + step.feeAmount <= s.remaining then s.remaining - (step.amountIn + step.feeAmount) else 0,
      s.amountOut + step.amountOut, s.crossings, s.steps + 1)
  }

  lemma RoundStep(pool: PoolState, chain: Reads, zeroForOne: bool, s: Swap)
    requires pool.fee <= MAX_SWAP_FEE && pool.tickSpacing > 0
    requires Advance(pool, chain, zeroForOne, s).Ok?
    ensures var n := NextInitializedTick(chain, s.tick, pool.tickSpacing, zeroForOne);
      MIN_TICK <= n.next <= MAX_TICK
        && ComputeSwapStep(s.price, chain.priceAt(n.next), s.liquidity, s.remaining, pool.fee).Ok?
  {
    hide ComputeSwapStep, NextInitializedTick;
  }

  lemma RoundIs(pool: PoolState, chain: Reads, zeroForOne: bool, s: Swap)
    requires pool.fee <= MAX_SWAP_FEE && pool.tickSpacing > 0
    requires var n := NextInitializedTick(chain, s.tick, pool.tickSpacing, zeroForOne);
      MIN_TICK <= n.next <= MAX_TICK
        && ComputeSwapStep(s.price, chain.priceAt(n.next), s.liquidity, s.remaining, pool.fee).Ok?
    ensures var n := NextInitializedTick(chain, s.tick, pool.tickSpacing, zeroForOne);
      var step := ComputeSwapStep(s.price, chain.priceAt(n.next), s.liquidity, s.remaining, pool.fee).value;
      && step.amountIn + step.feeAmount <= s.remaining
      && Advance(pool, chain, zeroForOne, s) ==
           (if step.sqrtNext == chain.priceAt(n.next) then Cross(pool, chain, zeroForOne, Moved(s, step), n)
            else match TickAtSqrtPrice(chain, step.sqrtNext)
              case Err(e) => Err(e)
              case Ok(tick) => Ok(Moved(s, step).(tick := tick)))
  {
    hide ComputeSwapStep, NextInitializedTick, Cross, TickAtSqrtPrice;
    var n := NextInitializedTick(chain, s.tick, pool.tickSpacing, zeroForOne);
    StepWithin(s.price, chain.priceAt(n.next), s.liquidity, s.remaining, pool.fee);
  }

  lemma {:induction false} FinishMonotone(pool: PoolState, chain: Reads, zeroForOne: bool, a: Swap, b: Swap)
    requires Consistent(pool, chain) && OnTrack(chain, zeroForOne, b) && Behind(a, b)
    requires Finish(pool, chain, zeroForOne, b).Ok?
    ensures Finish(pool, chain, zeroForOne, a).Ok?
    ensures var x, y := Finish(pool, chain, zeroForOne, a).value, Finish(pool, chain, zeroForOne, b).value;
      x.amountOut <= y.amountOut && x.crossings <= y.crossings && x.steps <= y.steps
    decreases MAX_LOOP_STEPS - b.steps
  {
    hide Advance, OnTrack, Consistent;
    assert pool.fee <= MAX_SWAP_FEE && pool.tickSpacing > 0 by { Legal(pool, chain); }
    if a.remaining == 0 {
      FinishGrows(pool, chain, zeroForOne, b);
    } else {
      RoundBehind(pool, chain, zeroForOne, a, b);
      AdvanceCounts(pool, chain, zeroForOne, b);
      var x, y := Advance(pool, chain, zeroForOne, a).value, Advance(pool, chain, zeroForOne, b).value;
      if Behind(x, y) && OnTrack(chain, zeroForOne, y) {
        FinishMonotone(pool, chain, zeroForOne, x, y);
      } else {
        FinishGrows(pool, chain, zeroForOne, y);
      }
    }
  }

  lemma Legal(pool: PoolState, chain: Reads)
    requires Consistent(pool, chain)
    ensures pool.fee <= MAX_SWAP_FEE && pool.tickSpacing > 0
  {
  }

  /** For one pool a quote is monotone and downward closed: where selling b succeeds, selling any a up to b succeeds
      too, pays out no more, and takes no more rounds or crossings. */
  lemma QuoteMonotone(pool: PoolState, chain: Reads, zeroForOne: bool, a: nat, b: nat)
    requires Consistent(pool, chain) && a <= b
    requires QuoteExactIn(pool, chain, zeroForOne, b).Ok?
    ensures QuoteExactIn(pool, chain, zeroForOne, a).Ok?
    ensures var x, y := QuoteExactIn(pool, chain, zeroForOne, a).value, QuoteExactIn(pool, chain, zeroForOne, b).value;
      x.amountOut <= y.amountOut && x.crossings <= y.crossings && x.steps <= y.steps
  {
    var start := Swap(pool.sqrtPrice, pool.tick, pool.liquidity, b, 0, 0, 0);
    hide Finish;
    FinishMonotone(pool, chain, zeroForOne, start.(remaining := a), start);
  }
}
