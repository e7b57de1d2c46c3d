/** One swap step of the Uniswap v3 curve on wrapped 256-bit integers (solver/src/v3math.ts). */
module V3Math {
  import opened Common

  const Q96: nat := 0x1_0000_0000_0000_0000_0000_0000
  const U128: nat := 0x1_0000_0000_0000_0000_0000_0000_0000_0000
  const U160: nat := 0x1_0000_0000_0000_0000_0000_0000_0000_0000_0000_0000
  const U256: nat := 0x1_0000000000000000_0000000000000000_0000000000000000_0000000000000000
  const MAX_SWAP_FEE: nat := 1_000_000

  datatype QuoteError =
    | FullMathOverflow
    | InvalidTick(tick: int)
    | InvalidSqrtPrice
    | InvalidPrice
    | SafeCastOverflow
    | InvalidPriceOrLiquidity
    | PoolNotInitialized
    | DynamicFeeUnsupported
    | TooManyTickCrossings(crossings: nat)
    | LiquidityExhausted(remaining: nat)

  type QuoteResult<T> = Result<T, QuoteError>

  // ----- products and quotients
  //
  // Written by repetition, so that the branches below can be followed without nonlinear terms. TimesIs and DivModIs say
  // that they are the built-in operators.

  function Times(a: nat, b: nat): nat { if a == 0 then 0 else Times(a - 1, b) + b }

  function Quotient(x: nat, d: nat): nat
    requires d > 0
  {
    if x < d then 0 else Quotient(x - d, d) + 1
  }

  function Remainder(x: nat, d: nat): nat
    requires d > 0
  {
    if x < d then x else Remainder(x - d, d)
  }

  lemma {:induction false} TimesIs(a: nat, b: nat)
    ensures Times(a, b) == a * b
  {
    if a > 0 {
      TimesIs(a - 1, b);
      assert (a - 1) * b + b == a * b;
    }
  }

  lemma {:induction false} DivModIs(x: nat, d: nat)
    requires d > 0
    ensures Quotient(x, d) == x / d && Remainder(x, d) == x % d
  {
    if x >= d {
      DivModIs(x - d, d);
      OneLess(x, d);
    }
    if x < d { FloorDiv(x, d, 0); FloorDiv(x, d, 1); assert x == x / d * d + x % d; }
  }

  lemma OneLess(x: nat, d: nat)
    requires 0 < d <= x
    ensures x / d == (x - d) / d + 1 && x % d == (x - d) % d
  {
    var q := (x - d) / d;
    FloorDiv(x - d, d, q);
    FloorDiv(x, d, q + 1);
    FloorDiv(x, d, q + 2);
    assert (q + 1) * d == q * d + d && (q + 2) * d == q * d + d + d;
    assert x == x / d * d + x % d && x - d == q * d + (x - d) % d;
  }

  function MulDiv(a: nat, b: nat, d: nat): QuoteResult<nat>
    requires d > 0
  {
    var r := Quotient(Times(a, b), d);
    if r >= U256 then Err(FullMathOverflow) else Ok(r)
  }

  lemma MulDivIs(a: nat, b: nat, d: nat)
    requires d > 0
    ensures a * b / d >= 0
    ensures MulDiv(a, b, d) == if a * b / d >= U256 then Err(FullMathOverflow) else Ok(a * b / d)
  {
    TimesIs(a, b);
    DivModIs(Times(a, b), d);
    hide Times, Quotient;
    FloorDiv(a * b, d, 0);
  }

  function MulDivRoundingUp(a: nat, b: nat, d: nat): QuoteResult<nat>
    requires d > 0
  {
    var r :- MulDiv(a, b, d);
    Ok(if Remainder(Times(a, b), d) > 0 then r + 1 else r)
  }

  function DivRoundingUp(x: nat, y: nat): nat
    requires y > 0
  {
    Quotient(x, y) + (if Remainder(x, y) > 0 then 1 else 0)
  }

  function Amount0Delta(p: nat, q: nat, liquidity: nat, roundUp: bool): QuoteResult<nat>
  {
    var a, b := if p > q then q else p, if p > q then p else q;
    if a == 0 then Err(InvalidPrice)
    else if roundUp then
      var whole :- MulDivRoundingUp(liquidity * Q96, b - a, b);
      Ok(DivRoundingUp(whole, a))
    else
      var whole :- MulDiv(liquidity * Q96, b - a, b);
      Ok(Quotient(whole, a))
  }

  function Amount1Delta(a: nat, b: nat, liquidity: nat, roundUp: bool): QuoteResult<nat>
  {
    var diff := if a > b then a - b else b - a;
    var amount :- MulDiv(liquidity, diff, Q96);
    Ok(if roundUp && Remainder(Times(liquidity, diff), Q96) > 0 then amount + 1 else amount)
  }

  /** An unchecked 256-bit result. */
  function Wrapped(x: nat): (r: nat)
    ensures r < U256
  {
    x % U256
  }

  /** The product and the sum wrap at 2^256, and a wrap is what chooses the fallback. */
  function NextFromAmount0(sqrtP: nat, liquidity: nat, amount: nat): QuoteResult<nat>
    requires sqrtP > 0 && liquidity > 0
  {
    hide Times, Wrapped, Quotient;
    if amount == 0 then Ok(sqrtP)
    else
      var numerator := liquidity * Q96;
      var product := Wrapped(Times(amount, sqrtP));
      var denominator := Wrapped(numerator + product);
      if Quotient(product, amount) == sqrtP
        && denominator >= numerator then MulDivRoundingUp(numerator, sqrtP, denominator)
      else Ok(DivRoundingUp(numerator, Quotient(numerator, sqrtP) + amount))
  }

  function NextFromAmount1(sqrtP: nat, liquidity: nat, amount: nat): QuoteResult<nat>
    requires liquidity > 0
  {
    var quotient :- if amount <= U160 - 1
      then Ok(Quotient(Times(amount, Q96), liquidity)) else MulDiv(amount, Q96, liquidity);
    if sqrtP + quotient >= U160 then Err(SafeCastOverflow) else Ok(sqrtP + quotient)
  }

  function NextFromInput(sqrtP: nat, liquidity: nat, amountIn: nat, zeroForOne: bool): QuoteResult<nat>
  {
    if sqrtP == 0 || liquidity == 0 then Err(InvalidPriceOrLiquidity)
    else if zeroForOne then NextFromAmount0(sqrtP, liquidity, amountIn)
    else NextFromAmount1(sqrtP, liquidity, amountIn)
  }

  datatype SwapStep = SwapStep(sqrtNext: nat, amountIn: nat, amountOut: nat, feeAmount: nat)

  /** What reaching the target would take, rounded up. */
  function Cost(sqrtCurrent: nat, sqrtTarget: nat, liquidity: nat): QuoteResult<nat>
  {
    if sqrtCurrent >= sqrtTarget then Amount0Delta(sqrtTarget, sqrtCurrent, liquidity, true)
    else Amount1Delta(sqrtCurrent, sqrtTarget, liquidity, true)
  }

  /** What moving to a price pays out, rounded down. */
  function Payout(sqrtCurrent: nat, sqrtNext: nat, liquidity: nat, zeroForOne: bool): QuoteResult<nat>
  {
    if zeroForOne then Amount1Delta(sqrtNext, sqrtCurrent, liquidity, false)
    else Amount0Delta(sqrtCurrent, sqrtNext, liquidity, false)
  }

  function LessFee(amountRemaining: nat, feePips: nat): QuoteResult<nat>
    requires feePips <= MAX_SWAP_FEE
  {
    MulDiv(amountRemaining, MAX_SWAP_FEE - feePips, MAX_SWAP_FEE)
  }

  function FeeOn(amountIn: nat, feePips: nat): QuoteResult<nat>
    requires feePips <= MAX_SWAP_FEE
  {
    if feePips == MAX_SWAP_FEE then Ok(amountIn) else MulDivRoundingUp(amountIn, feePips, MAX_SWAP_FEE - feePips)
  }

  /** computeSwapStepExactIn. */
  function ComputeSwapStep(sqrtCurrent: nat, sqrtTarget: nat, liquidity: nat, amountRemaining: nat,
      feePips: nat): QuoteResult<SwapStep>
    requires feePips <= MAX_SWAP_FEE
  {
    var zeroForOne := sqrtCurrent >= sqrtTarget;
    var lessFee :- LessFee(amountRemaining, feePips);
    var cost :- Cost(sqrtCurrent, sqrtTarget, liquidity);
    if lessFee >= cost then
      var feeAmount :- FeeOn(cost, feePips);
      var amountOut :- Payout(sqrtCurrent, sqrtTarget, liquidity, zeroForOne);
      Ok(SwapStep(sqrtTarget, cost, amountOut, feeAmount))
    else
      var sqrtNext :- NextFromInput(sqrtCurrent, liquidity, lessFee, zeroForOne);
      var amountOut :- Payout(sqrtCurrent, sqrtNext, liquidity, zeroForOne);
      LessFeeWithin(amountRemaining, feePips);
      Ok(SwapStep(sqrtNext, lessFee, amountOut, amountRemaining - lessFee))
  }

  lemma LessFeeWithin(amountRemaining: nat, feePips: nat)
    requires feePips <= MAX_SWAP_FEE
    ensures LessFee(amountRemaining, feePips).Ok? ==> LessFee(amountRemaining, feePips).value <= amountRemaining
  {
    MulDivIs(amountRemaining, MAX_SWAP_FEE - feePips, MAX_SWAP_FEE);
    hide MulDiv;
    MulMono(MAX_SWAP_FEE - feePips, MAX_SWAP_FEE, amountRemaining);
    var d := MAX_SWAP_FEE;
    FloorDiv(amountRemaining * (MAX_SWAP_FEE - feePips), d, amountRemaining + 1);
    assert (amountRemaining + 1) * d == amountRemaining * d + d;
  }

  // ----- rounding

  lemma DivRoundingUpIsCeil(x: nat, y: nat)
    requires y > 0
    ensures DivRoundingUp(x, y) == CeilDiv(x, y)
  {
    hide Quotient, Remainder, CeilDiv;
    DivModIs(x, y);
    FloorToCeiling(x, y, x / y, x % y);
  }

  /** The ceiling is the quotient, or one more when something remains. */
  lemma FloorToCeiling(x: nat, y: nat, q: int, r: int)
    requires y > 0 && q == x / y && r == x % y
    ensures CeilDiv(x, y) == q + (if r > 0 then 1 else 0)
  {
    hide CeilDiv;
    assert x == q * y + r && 0 <= r < y;
    CeilingDiv(x, y, q);
    CeilingDiv(x, y, q - 1);
    assert (q + 1) * y == q * y + y && (q - 1) * y == q * y - y;
    CeilingDiv(x, y, q + 1);
  }

  lemma MulDivUpIsCeil(a: nat, b: nat, d: nat)
    requires d > 0
    ensures MulDivRoundingUp(a, b, d).Ok? <==> a * b / d < U256
    ensures MulDivRoundingUp(a, b, d).Ok? ==> MulDivRoundingUp(a, b, d).value == CeilDiv(a * b, d)
  {
    MulDivIs(a, b, d);
    TimesIs(a, b);
    DivRoundingUpIsCeil(Times(a, b), d);
    DivModIs(Times(a, b), d);
    hide Times, Quotient, Remainder, CeilDiv, MulDiv;
  }

  /** Rounding up twice is rounding up once by the product. */
  lemma CeilTwice(x: nat, b: nat, a: nat, q: nat)
    requires a > 0 && b > 0
    ensures q < CeilDiv(CeilDiv(x, b), a) <==> q * a * b < x
  {
    CeilingDiv(CeilDiv(x, b), a, q);
    CeilingDiv(x, b, q * a);
  }

  // ----- the price after selling token zero

  function Exact0(n: nat, s: nat, x: nat): nat
    requires n > 0
  {
    CeilDiv(n * s, n + x * s)
  }

  function Fallback0(n: nat, s: nat, x: nat): nat
    requires s > 0 && n / s + x > 0
  {
    CeilDiv(n, n / s + x)
  }

  lemma ProductWraps(x: nat, s: nat)
    requires x > 0
    ensures Times(x, s) == x * s
    ensures Quotient(Wrapped(Times(x, s)), x) == s <==> x * s < U256
    ensures x * s < U256 ==> Wrapped(Times(x, s)) == x * s
  {
    var p, w := x * s, Wrapped(x * s);
    WrapIs(p);
    TimesIs(x, s);
    DivModIs(w, x);
    hide Wrapped, Times, Quotient;
    FloorDiv(w, x, s);
    if p < U256 {
      FloorDiv(w, x, s + 1);
      Spread(s, 1, x);
    }
  }

  lemma WrapIs(p: nat)
    ensures p < U256 ==> Wrapped(p) == p
    ensures p >= U256 ==> Wrapped(p) < p
  {
  }

  lemma SumWraps(n: nat, product: nat)
    requires n < U256 && product < U256
    ensures Wrapped(n + product) >= n <==> n + product < U256
    ensures n + product < U256 ==> Wrapped(n + product) == n + product
  {
  }

  /** The wrapped arithmetic takes the exact formula exactly when nothing wraps, and the fallback otherwise. */
  lemma NextFromAmount0Is(s: nat, liquidity: nat, x: nat)
    requires s > 0 && 0 < liquidity < U128 && x > 0 && s < U160
    ensures liquidity * Q96 < U256 && liquidity * Q96 > 0
    ensures NextFromAmount0(s, liquidity, x) ==
      Ok(if liquidity * Q96 + x * s < U256 then Exact0(liquidity * Q96, s, x) else Fallback0(liquidity * Q96, s, x))
  {
    hide Wrapped, Times, Quotient, MulDivRoundingUp, DivRoundingUp, CeilDiv;
    var n := liquidity * Q96;
    ProductWraps(x, s);
    SumWraps(n, Wrapped(Times(x, s)));
    QuotientIs(n, s);
    if x * s < U256 && n + x * s < U256 {
      ExactIs(n, s, x);
    } else {
      DivRoundingUpIsCeil(n, n / s + x);
    }
  }

  lemma QuotientIs(n: nat, s: nat)
    requires s > 0
    ensures Quotient(n, s) == n / s && n / s >= 0
  {
    DivModIs(n, s);
  }

  lemma ExactIs(n: nat, s: nat, x: nat)
    requires n > 0 && n + x * s < U256 && s < U160
    ensures x * s >= 0 && MulDivRoundingUp(n, s, n + x * s) == Ok(Exact0(n, s, x))
  {
    hide MulDivRoundingUp, CeilDiv;
    assert x * s >= 0;
    Exact0Below(n, s, x);
    FloorUnder(n * s, n + x * s, s);
    MulDivUpIsCeil(n, s, n + x * s);
  }

  lemma FloorUnder(a: nat, d: nat, q: nat)
    requires d > 0 && a <= q * d
    ensures a / d <= q
  {
    FloorDiv(a, d, q + 1);
    Spread(q, 1, d);
  }

  lemma Exact0Below(n: nat, s: nat, x: nat)
    requires n > 0
    ensures n * s <= s * (n + x * s)
    ensures Exact0(n, s, x) <= s
  {
    assert x * s >= 0;
    MulMono(n, n + x * s, s);
    CeilingDiv(n * s, n + x * s, s);
  }

  lemma Fallback0Below(n: nat, s: nat, x: nat)
    requires s > 0 && x > 0
    ensures n / s + x > 0
    ensures Fallback0(n, s, x) <= s
  {
    assert n / s >= 0;
    FloorDiv(n, s, 0);
    MulMono(n / s + 1, n / s + x, s);
    Spread(n / s, 1, s);
    CeilingDiv(n, n / s + x, s);
  }

  /** The fallback never lands below the exact price. */
  lemma Fallback0Above(n: nat, s: nat, x: nat)
    requires s > 0 && x > 0 && n > 0
    ensures n / s + x > 0
    ensures Exact0(n, s, x) <= Fallback0(n, s, x)
  {
    assert n / s >= 0;
    var k := n / s + x;
    var q := CeilDiv(n, k);
    CeilingDiv(n, k, q);
    FloorDiv(n, s, 0);
    Spread(n / s, x, s);
    assert k * s <= n + x * s;
    MulMono(n, q * k, s);
    MulMono(k * s, n + x * s, q);
    Regroup(q, k, s);
    assert x * s >= 0;
    CeilingDiv(n * s, n + x * s, q);
  }

  lemma Regroup(a: int, b: int, c: int)
    ensures a * b * c == a * (b * c)
  {
  }

  /** Both formulas fall as more is sold. */
  lemma Exact0Falls(n: nat, s: nat, x: nat, y: nat)
    requires n > 0 && x <= y
    ensures Exact0(n, s, y) <= Exact0(n, s, x)
  {
    MulMono(x, y, s);
    assert x * s >= 0;
    var q := Exact0(n, s, x);
    CeilingDiv(n * s, n + x * s, q);
    MulMono(n + x * s, n + y * s, q);
    CeilingDiv(n * s, n + y * s, q);
  }

  lemma Fallback0Falls(n: nat, s: nat, x: nat, y: nat)
    requires s > 0 && 0 < x <= y
    ensures n / s + x > 0 && n / s + y > 0
    ensures Fallback0(n, s, y) <= Fallback0(n, s, x)
  {
    assert n / s >= 0;
    var q := Fallback0(n, s, x);
    CeilingDiv(n, n / s + x, q);
    MulMono(n / s + x, n / s + y, q);
    CeilingDiv(n, n / s + y, q);
  }

  /** Selling even one unit more across the switch to the fallback still does not raise the price. */
  lemma SwitchFalls(n: nat, s: nat, x: nat, y: nat)
    requires s > 0 && n > 0 && x < y
    ensures n / s + y > 0
    ensures Fallback0(n, s, y) <= Exact0(n, s, x)
  {
    assert n / s >= 0 && x * s >= 0;
    var q, k := Exact0(n, s, x), n / s + y;
    CeilingDiv(n * s, n + x * s, q);
    FloorDiv(n, s, 0);
    MulMono(n / s + 1 + x, k, s);
    Spread(n / s + 1, x, s);
    Spread(n / s, 1, s);
    assert n + x * s <= k * s;
    MulMono(n + x * s, k * s, q);
    Regroup(q, k, s);
    MulCancel(n, q * k, s);
    CeilingDiv(n, k, q);
  }

  /** More token zero sold, a price no higher; and never above where it started. */
  lemma NextFromAmount0Falls(s: nat, liquidity: nat, x: nat, y: nat)
    requires 0 < s < U160 && 0 < liquidity < U128 && x <= y
    ensures NextFromAmount0(s, liquidity, x).Ok? && NextFromAmount0(s, liquidity, y).Ok?
    ensures NextFromAmount0(s, liquidity, y).value <= NextFromAmount0(s, liquidity, x).value <= s
  {
    var n := liquidity * Q96;
    if x > 0 {
      NextFromAmount0Is(s, liquidity, x);
      Exact0Below(n, s, x);
      Fallback0Below(n, s, x);
    }
    if y > 0 {
      NextFromAmount0Is(s, liquidity, y);
      Exact0Below(n, s, y);
      Fallback0Below(n, s, y);
    }
    if 0 < x {
      hide NextFromAmount0, Exact0, Fallback0;
      Exact0Falls(n, s, x, y);
      Fallback0Falls(n, s, x, y);
      MulMono(x, y, s);
      if x < y { SwitchFalls(n, s, x, y); }
    }
  }

  /** Paying less than the rounded-up cost stops strictly short of the target, on either branch. */
  lemma NextFromAmount0Short(s: nat, t: nat, liquidity: nat, x: nat)
    requires 0 < t <= s < U160 && 0 < liquidity < U128
    requires Amount0Delta(t, s, liquidity, true).Ok? && x < Amount0Delta(t, s, liquidity, true).value
    ensures NextFromAmount0(s, liquidity, x).Ok? && t < NextFromAmount0(s, liquidity, x).value
  {
    var n := liquidity * Q96;
    CostIs(n, s, t, x);
    hide Amount0Delta, CeilDiv, NextFromAmount0, Exact0, Fallback0;
    if x == 0 {
      StartAbove(n, s, t, liquidity);
    } else {
      NextFromAmount0Is(s, liquidity, x);
      Fallback0Above(n, s, x);
      StrictlyAbove(n, s, t, x);
    }
  }

  lemma StartAbove(n: nat, s: nat, t: nat, liquidity: nat)
    requires 0 < t <= s && liquidity > 0 && 0 < n * (s - t)
    ensures NextFromAmount0(s, liquidity, 0) == Ok(s) && t < s
  {
    assert s == t ==> n * (s - t) == 0;
  }

  /** Below the rounded-up cost, in products. */
  lemma CostIs(n: nat, s: nat, t: nat, x: nat)
    requires 0 < t <= s && n % Q96 == 0
    requires Amount0Delta(t, s, n / Q96, true).Ok? && x < Amount0Delta(t, s, n / Q96, true).value
    ensures x * t * s < n * (s - t)
  {
    hide MulDivRoundingUp, DivRoundingUp, CeilDiv;
    assert n / Q96 * Q96 == n;
    MulDivUpIsCeil(n, s - t, s);
    DivRoundingUpIsCeil(CeilDiv(n * (s - t), s), t);
    CeilTwice(n * (s - t), s, t, x);
  }

  lemma StrictlyAbove(n: nat, s: nat, t: nat, x: nat)
    requires n > 0 && t <= s && x * t * s < n * (s - t)
    ensures t < Exact0(n, s, x)
  {
    assert x * s >= 0;
    assert n * (s - t) == n * s - n * t;
    assert t * (n + x * s) == n * t + x * t * s by { Spread(n, x * s, t); Regroup(x, s, t); Regroup(x, t, s); }
    CeilingDiv(n * s, n + x * s, t);
  }

  // ----- the price after selling token one

  lemma NextFromAmount1Is(s: nat, liquidity: nat, x: nat)
    requires liquidity > 0
    ensures NextFromAmount1(s, liquidity, x).Ok? <==> s + x * Q96 / liquidity < U160
    ensures NextFromAmount1(s, liquidity, x).Ok? ==> NextFromAmount1(s, liquidity, x).value == s + x * Q96 / liquidity
  {
    TimesIs(x, Q96);
    DivModIs(Times(x, Q96), liquidity);
    MulDivIs(x, Q96, liquidity);
    hide Times, Quotient, MulDiv;
  }

  lemma NextFromAmount1Rises(s: nat, liquidity: nat, x: nat, y: nat)
    requires liquidity > 0 && x <= y
    requires NextFromAmount1(s, liquidity, y).Ok?
    ensures NextFromAmount1(s, liquidity, x).Ok?
    ensures s <= NextFromAmount1(s, liquidity, x).value <= NextFromAmount1(s, liquidity, y).value
  {
    NextFromAmount1Is(s, liquidity, x);
    NextFromAmount1Is(s, liquidity, y);
    hide NextFromAmount1;
    MulMono(x, y, Q96);
    var p := x * Q96;
    assert p >= 0;
    FloorDiv(p, liquidity, 0);
    FloorDiv(y * Q96, liquidity, p / liquidity);
  }

  lemma NextFromAmount1Short(s: nat, t: nat, liquidity: nat, x: nat)
    requires s < t < U160 && liquidity > 0
    requires Amount1Delta(s, t, liquidity, true).Ok? && x < Amount1Delta(s, t, liquidity, true).value
    ensures NextFromAmount1(s, liquidity, x).Ok? && NextFromAmount1(s, liquidity, x).value < t
  {
    hide NextFromAmount1, Amount1Delta, CeilDiv, DivRoundingUp;
    NextFromAmount1Is(s, liquidity, x);
    Amount1Is(s, t, liquidity);
    DivRoundingUpIsCeil(liquidity * (t - s), Q96);
    ShortOfCost(liquidity, t - s, x, Q96);
  }

  /** Below the rounded-up cost of a distance, what is bought falls short of the distance. */
  lemma ShortOfCost(liquidity: nat, distance: nat, x: nat, d: nat)
    requires liquidity > 0 && d > 0 && liquidity * distance >= 0
    requires x < CeilDiv(liquidity * distance, d)
    ensures x * d / liquidity < distance
  {
    hide CeilDiv;
    CeilingDiv(liquidity * distance, d, x);
    FloorDiv(x * d, liquidity, distance);
  }

  lemma Amount1Is(s: nat, t: nat, liquidity: nat)
    requires s <= t
    ensures liquidity * (t - s) >= 0
    ensures Amount1Delta(s, t, liquidity, true).Ok? ==>
      Amount1Delta(s, t, liquidity, true).value == DivRoundingUp(liquidity * (t - s), Q96)
  {
    TimesIs(liquidity, t - s);
    hide Times, Quotient, Remainder;
  }

  // ----- what a move pays out

  /** Sizes every pool respects: a price below 2^160 and a liquidity below 2^128. */
  predicate Sized(s: nat, t: nat, liquidity: nat) { s < U160 && t < U160 && liquidity < U128 }

  lemma QuotientBound(x: nat, y: nat, bound: nat, d: nat)
    requires d > 0 && x < bound && y < U160 && bound * U160 <= U256 * d
    ensures x * y / d < U256
  {
    MulMono2(x, bound, y, U160);
    assert x * y < bound * U160 by {
      MulMono(y, U160, x);
      MulStrict(x, bound, U160);
    }
    FloorDiv(x * y, d, U256);
  }

  /** Selling token zero: the further down, the more token one. */
  lemma PayoutDown(s: nat, near: nat, far: nat, liquidity: nat)
    requires Sized(s, s, liquidity) && far <= near <= s
    ensures Payout(s, near, liquidity, true).Ok? && Payout(s, far, liquidity, true).Ok?
    ensures Payout(s, near, liquidity, true).value <= Payout(s, far, liquidity, true).value
  {
    MulDivIs(liquidity, s - near, Q96);
    MulDivIs(liquidity, s - far, Q96);
    hide MulDiv, Times, Quotient, Remainder;
    QuotientBound(liquidity, s - far, U128, Q96);
    MulMono(s - near, s - far, liquidity);
    FloorDiv(liquidity * (s - far), Q96, liquidity * (s - near) / Q96);
    FloorDiv(liquidity * (s - near), Q96, 0);
  }

  /** Selling token one: the further up, the more token zero. */
  lemma PayoutUp(s: nat, near: nat, far: nat, liquidity: nat)
    requires Sized(s, far, liquidity) && 0 < s <= near <= far
    ensures Payout(s, near, liquidity, false).Ok? && Payout(s, far, liquidity, false).Ok?
    ensures Payout(s, near, liquidity, false).value <= Payout(s, far, liquidity, false).value
  {
    var n := liquidity * Q96;
    OneWhole(n, s, near);
    OneWhole(n, s, far);
    ShareRises(n, s, near, far);
    var x, y := n * (near - s) / near, n * (far - s) / far;
    FloorMono(x, y, s);
    DivModIs(x, s);
    DivModIs(y, s);
    hide MulDiv, Quotient;
  }

  lemma FloorMono(a: nat, b: nat, d: nat)
    requires d > 0 && a <= b
    ensures a / d <= b / d
  {
    FloorDiv(a, d, 0);
    FloorDiv(b, d, a / d);
  }

  lemma OneWhole(n: nat, s: nat, far: nat)
    requires 0 < s <= far && n < U256
    ensures n * (far - s) / far <= n
    ensures MulDiv(n, far - s, far) == Ok(n * (far - s) / far)
  {
    MulDivIs(n, far - s, far);
    hide MulDiv;
    MulMono(far - s, far, n);
    FloorUnder(n * (far - s), far, n);
  }

  lemma ShareRises(n: nat, s: nat, near: nat, far: nat)
    requires 0 < s <= near <= far
    ensures n * (near - s) / near <= n * (far - s) / far
  {
    var q := n * (near - s) / near;
    assert n * (near - s) >= 0;
    FloorDiv(n * (near - s), near, 0);
    MulMono(q * near, n * (near - s), far);
    CrossTerms(n, s, near, far);
    assert q * near * far <= n * (far - s) * near;
    assert q * far * near == q * near * far by { Regroup(q, far, near); Regroup(q, near, far); }
    MulCancel(q * far, n * (far - s), near);
    FloorDiv(n * (far - s), far, q);
  }

  lemma CrossTerms(n: nat, s: nat, near: nat, far: nat)
    requires s <= near <= far
    ensures n * (near - s) * far <= n * (far - s) * near
  {
    var x, y := (near - s) * far, (far - s) * near;
    var minus: int := 0 - s;
    Spread(near, minus, far);
    Spread(far, minus, near);
    MulMono(near, far, s);
    MulMono(x, y, n);
    Regroup(n, near - s, far);
    Regroup(n, far - s, near);
  }

  // ----- the fee

  /** When the fee-reduced input covers the cost, cost and fee together are within the input. */
  lemma FeeFits(amountRemaining: nat, feePips: nat, cost: nat)
    requires feePips <= MAX_SWAP_FEE
    requires LessFee(amountRemaining, feePips).Ok? && cost <= LessFee(amountRemaining, feePips).value
    requires FeeOn(cost, feePips).Ok?
    ensures cost + FeeOn(cost, feePips).value <= amountRemaining
  {
    var keep := MAX_SWAP_FEE - feePips;
    var d := MAX_SWAP_FEE;
    MulDivIs(amountRemaining, keep, d);
    hide MulDiv, MulDivRoundingUp;
    FloorDiv(amountRemaining * keep, d, cost);
    assert cost * d <= amountRemaining * keep;
    hide *;
    if keep == 0 {
      assert cost * d == 0;
    } else {
      MulDivUpIsCeil(cost, feePips, keep);
      LessFeeWithin(amountRemaining, feePips);
      FeeShare(amountRemaining, cost, keep, feePips);
      CeilingDiv(cost * feePips, keep, amountRemaining - cost);
    }
  }

  lemma FeeShare(amount: int, cost: int, keep: int, feePips: int)
    requires cost * (keep + feePips) <= amount * keep
    ensures cost * feePips <= (amount - cost) * keep
  {
    Spread(keep, feePips, cost);
    Spread(amount, -cost, keep);
    assert (-cost) * keep == -(cost * keep);
  }

  lemma LessFeeRises(a: nat, b: nat, feePips: nat)
    requires feePips <= MAX_SWAP_FEE && a <= b
    requires LessFee(b, feePips).Ok?
    ensures LessFee(a, feePips).Ok? && LessFee(a, feePips).value <= LessFee(b, feePips).value
  {
    var keep, d := MAX_SWAP_FEE - feePips, MAX_SWAP_FEE;
    MulDivIs(a, keep, d);
    MulDivIs(b, keep, d);
    hide MulDiv;
    MulMono(a, b, keep);
    assert a * keep >= 0;
    FloorMono(a * keep, b * keep, d);
  }

  /** With no liquidity a move costs nothing. */
  lemma CostWithoutLiquidity(s: nat, t: nat)
    requires Cost(s, t, 0).Ok?
    ensures Cost(s, t, 0).value == 0
  {
    assert 0 * Q96 == 0;
    if s >= t {
      assert 0 * (s - t) == 0;
      ZeroDiv(s);
      ZeroDiv(t);
    } else {
      assert 0 * (t - s) == 0;
    }
  }

  lemma ZeroDiv(d: nat)
    ensures d > 0 ==> 0 / d == 0 && 0 % d == 0
  {
  }

  /** Short of the cost, the price moves toward the target and stops strictly before it. */
  lemma PartialMove(s: nat, t: nat, liquidity: nat, x: nat)
    requires Sized(s, t, liquidity) && s > 0
    requires Cost(s, t, liquidity).Ok? && x < Cost(s, t, liquidity).value
    ensures var next := NextFromInput(s, liquidity, x, s >= t);
      && next.Ok?
      && (if s >= t then t < next.value <= s else s <= next.value < t)
      && Payout(s, next.value, liquidity, s >= t).Ok?
  {
    if liquidity == 0 {
      CostWithoutLiquidity(s, t);
    } else {
      hide Amount0Delta, Amount1Delta, NextFromAmount0, NextFromAmount1;
      if s >= t {
        TargetPositive(s, t, liquidity);
        NextFromAmount0Short(s, t, liquidity, x);
        NextFromAmount0Falls(s, liquidity, x, x);
        PayoutDown(s, NextFromInput(s, liquidity, x, true).value, NextFromInput(s, liquidity, x, true).value,
          liquidity);
      } else {
        NextFromAmount1Short(s, t, liquidity, x);
        NextFromAmount1Rises(s, liquidity, x, x);
        PayoutUp(s, NextFromInput(s, liquidity, x, false).value, NextFromInput(s, liquidity, x, false).value,
          liquidity);
      }
    }
  }

  lemma TargetPositive(s: nat, t: nat, liquidity: nat)
    requires s >= t && Cost(s, t, liquidity).Ok?
    ensures t > 0
  {
  }

  /** One swap step. It reaches its target exactly when the fee-reduced input covers the rounded-up cost, never passes
      it, and consumes at most the input, all of it when the target is not reached. */
  lemma StepSound(s: nat, t: nat, liquidity: nat, remaining: nat, feePips: nat)
    requires Sized(s, t, liquidity) && s > 0 && feePips <= MAX_SWAP_FEE
    requires ComputeSwapStep(s, t, liquidity, remaining, feePips).Ok?
    ensures LessFee(remaining, feePips).Ok? && Cost(s, t, liquidity).Ok?
    ensures var step := ComputeSwapStep(s, t, liquidity, remaining, feePips).value;
      && (step.sqrtNext == t <==> LessFee(remaining, feePips).value >= Cost(s, t, liquidity).value)
      && Min(s, t) <= step.sqrtNext <= Max(s, t)
      && step.amountIn + step.feeAmount <= remaining
      && (step.sqrtNext != t ==> step.amountIn + step.feeAmount == remaining)
  {
    hide LessFee, FeeOn, Cost, Payout, NextFromInput;
    var lessFee, cost := LessFee(remaining, feePips).value, Cost(s, t, liquidity).value;
    if lessFee >= cost {
      FeeFits(remaining, feePips, cost);
    } else {
      PartialMove(s, t, liquidity, lessFee);
      LessFeeWithin(remaining, feePips);
    }
  }

  /** With less input a step that worked still works, stays between the start and the other step's end, and pays out no
      more; where it reaches the target it does exactly what the other did. */
  lemma StepMonotone(s: nat, t: nat, liquidity: nat, a: nat, b: nat, feePips: nat)
    requires Sized(s, t, liquidity) && s > 0 && feePips <= MAX_SWAP_FEE && a <= b
    requires ComputeSwapStep(s, t, liquidity, b, feePips).Ok?
    ensures ComputeSwapStep(s, t, liquidity, a, feePips).Ok?
    ensures var lesser, greater := ComputeSwapStep(s, t, liquidity, a, feePips).value,
      ComputeSwapStep(s, t, liquidity, b, feePips).value;
      && (lesser.sqrtNext == t ==> lesser == greater)
      && (if s >= t then greater.sqrtNext <= lesser.sqrtNext <= s else s <= lesser.sqrtNext <= greater.sqrtNext)
      && lesser.amountOut <= greater.amountOut
  {
    LessFeeRises(a, b, feePips);
    hide LessFee, FeeOn, Cost, Payout, NextFromInput;
    var cost, x, y := Cost(s, t, liquidity).value, LessFee(a, feePips).value, LessFee(b, feePips).value;
    if x < cost {
      PartialMove(s, t, liquidity, x);
      LessFeeWithin(a, feePips);
      if y < cost {
        PartialMove(s, t, liquidity, y);
        PartialMoves(s, t, liquidity, x, y);
      }
      PayoutMoves(s, t, liquidity, ComputeSwapStep(s, t, liquidity, a, feePips).value.sqrtNext,
        ComputeSwapStep(s, t, liquidity, b, feePips).value.sqrtNext);
    } else {
      PayoutMoves(s, t, liquidity, t, t);
    }
  }

  lemma PartialMoves(s: nat, t: nat, liquidity: nat, x: nat, y: nat)
    requires Sized(s, t, liquidity) && s > 0 && x <= y
    requires NextFromInput(s, liquidity, x, s >= t).Ok? && NextFromInput(s, liquidity, y, s >= t).Ok?
    ensures var p, q := NextFromInput(s, liquidity, x, s >= t).value, NextFromInput(s, liquidity, y, s >= t).value;
      if s >= t then q <= p <= s else s <= p <= q
  {
    hide NextFromAmount0, NextFromAmount1;
    if s >= t {
      NextFromAmount0Falls(s, liquidity, x, y);
    } else {
      NextFromAmount1Rises(s, liquidity, x, y);
    }
  }

  lemma PayoutMoves(s: nat, t: nat, liquidity: nat, near: nat, far: nat)
    requires Sized(s, far, liquidity) && s > 0
    requires if s >= t then far <= near <= s else s <= near <= far
    ensures Payout(s, near, liquidity, s >= t).Ok? && Payout(s, far, liquidity, s >= t).Ok?
    ensures Payout(s, near, liquidity, s >= t).value <= Payout(s, far, liquidity, s >= t).value
  {
    hide Payout;
    if s >= t { PayoutDown(s, near, far, liquidity); } else { PayoutUp(s, near, far, liquidity); }
  }
}
