/** The figures of a swap step by the formulas of section 6.2.3 of the Uniswap v3 Core whitepaper, rounded as
    solver/src/v3math.ts rounds them. */
module V3Figures {
  import opened Common
  import opened V3Math

  /** q is a / d rounded down. */
  predicate IsFloor(q: int, a: int, d: int) { q * d <= a < q * d + d }

  /** q is a / d rounded up. */
  predicate IsCeil(q: int, a: int, d: int) { q * d - d < a <= q * d }

  lemma FloorIs(a: int, d: int)
    requires d > 0
    ensures IsFloor(a / d, a, d)
  {
    FloorDiv(a, d, 0);
  }

  lemma CeilIs(a: nat, d: nat)
    requires d > 0
    ensures IsCeil(CeilDiv(a, d), a, d)
  {
    CeilingDiv(a, d, 0);
  }

  /** Rounding up twice is rounding up once. */
  lemma CeilCeil(x: nat, b: nat, a: nat)
    requires a > 0 && b > 0
    ensures IsCeil(CeilDiv(CeilDiv(x, b), a), x, b * a)
  {
    var q := CeilDiv(CeilDiv(x, b), a);
    hide CeilDiv;
    CeilingDiv(CeilDiv(x, b), a, q - 1);
    CeilingDiv(x, b, (q - 1) * a);
    CeilingDiv(CeilDiv(x, b), a, q);
    CeilingDiv(x, b, q * a);
    Assoc(q, a, b);
    Assoc(q - 1, a, b);
    Spread(q, -1, b * a);
  }

  /** Rounding down twice is rounding down once. */
  lemma FloorFloor(x: nat, b: nat, a: nat)
    requires a > 0 && b > 0
    ensures IsFloor(x / b / a, x, b * a)
  {
    var q := x / b / a;
    FloorDiv(x / b, a, q);
    FloorDiv(x, b, q * a);
    FloorDiv(x / b, a, q + 1);
    FloorDiv(x, b, (q + 1) * a);
    Assoc(q, a, b);
    Assoc(q + 1, a, b);
    Spread(q, 1, b * a);
  }

  lemma Assoc(q: int, a: int, b: int)
    ensures q * a * b == q * (b * a)
  {
  }

  /** What a move down or up pays out. */
  predicate Pays(s: nat, next: nat, liquidity: nat, amountOut: nat)
  {
    if next <= s then IsFloor(amountOut, liquidity * (s - next), Q96)
    else IsFloor(amountOut, liquidity * Q96 * (next - s), next * s)
  }

  /** What a move down or up costs before the fee. */
  predicate Costs(s: nat, t: nat, liquidity: nat, amountIn: nat)
  {
    if t <= s then IsCeil(amountIn, liquidity * Q96 * (s - t), s * t)
    else IsCeil(amountIn, liquidity * (t - s), Q96)
  }

  lemma PayoutPays(s: nat, next: nat, liquidity: nat, down: bool)
    requires s > 0 && (if down then next <= s else s <= next)
    requires Payout(s, next, liquidity, down).Ok?
    ensures Pays(s, next, liquidity, Payout(s, next, liquidity, down).value)
  {
    if down {
      MulDivIs(liquidity, s - next, Q96);
      FloorIs(liquidity * (s - next), Q96);
      hide MulDiv, Times, Remainder, IsFloor;
    } else {
      var n := liquidity * Q96;
      MulDivIs(n, next - s, next);
      DivModIs(n * (next - s) / next, s);
      hide MulDiv, Quotient, IsFloor;
      Product(n, next - s);
      FloorFloor(n * (next - s), next, s);
      if next == s {
        StaysPutPays(s, liquidity);
      }
    }
  }

  lemma StaysPutPays(s: nat, liquidity: nat)
    requires s > 0
    ensures liquidity * Q96 * (s - s) / s / s == 0 && IsFloor(0, liquidity * (s - s), Q96)
  {
  }

  lemma Product(a: nat, b: nat)
    ensures a * b >= 0
  {
  }

  lemma CostCosts(s: nat, t: nat, liquidity: nat)
    requires s > 0 && Cost(s, t, liquidity).Ok?
    ensures Costs(s, t, liquidity, Cost(s, t, liquidity).value)
  {
    if s >= t {
      var n := liquidity * Q96;
      Product(n, s - t);
      MulDivUpIsCeil(n, s - t, s);
      DivRoundingUpIsCeil(CeilDiv(n * (s - t), s), t);
      CeilCeil(n * (s - t), s, t);
      hide MulDivRoundingUp, DivRoundingUp, CeilDiv, IsCeil;
    } else {
      Product(liquidity, t - s);
      Amount1Is(s, t, liquidity);
      DivRoundingUpIsCeil(liquidity * (t - s), Q96);
      CeilIs(liquidity * (t - s), Q96);
      hide Amount1Delta, DivRoundingUp, CeilDiv, IsCeil;
    }
  }

  /** Where an input short of the target's cost moves the price: up by what it buys at this liquidity, rounded down, or
      down to the new price rounded up, by the precise formula unless its products would not fit in 256 bits. */
  ghost predicate MovesTo(s: nat, liquidity: nat, amountIn: nat, down: bool, next: nat)
  {
    var n := liquidity * Q96;
    if !down then IsFloor(next - s, amountIn * Q96, liquidity)
    else if amountIn == 0 then next == s
    else if n + amountIn * s < U256 then IsCeil(next, n * s, n + amountIn * s)
    else exists whole: int :: IsFloor(whole, n, s) && IsCeil(next, n, whole + amountIn)
  }

  /** The fee on top of an amount that reaches the target. */
  predicate ChargesFee(amountIn: nat, feePips: nat, feeAmount: nat)
  {
    if feePips == MAX_SWAP_FEE then feeAmount == amountIn
    else IsCeil(feeAmount, amountIn * feePips, MAX_SWAP_FEE - feePips)
  }

  /** The figures of one step: its payout, and either the target's cost and the fee on it, or the whole input less the
      fee and where that moves the price. */
  ghost predicate Figures(s: nat, t: nat, liquidity: nat, remaining: nat, feePips: nat, step: SwapStep)
  {
    && Pays(s, step.sqrtNext, liquidity, step.amountOut)
    && if step.sqrtNext == t then
         Costs(s, t, liquidity, step.amountIn) && ChargesFee(step.amountIn, feePips, step.feeAmount)
       else
         && IsFloor(step.amountIn, remaining * (MAX_SWAP_FEE - feePips), MAX_SWAP_FEE)
         && step.feeAmount == remaining - step.amountIn
         && MovesTo(s, liquidity, step.amountIn, t <= s, step.sqrtNext)
  }

  lemma MoveMovesTo(s: nat, liquidity: nat, x: nat, down: bool)
    requires 0 < s < U160 && liquidity < U128 && NextFromInput(s, liquidity, x, down).Ok?
    ensures MovesTo(s, liquidity, x, down, NextFromInput(s, liquidity, x, down).value)
  {
    if !down {
      NextFromAmount1Is(s, liquidity, x);
      FloorIs(x * Q96, liquidity);
      hide NextFromAmount1, NextFromAmount0, IsFloor;
    } else if x > 0 {
      NextFromAmount0Is(s, liquidity, x);
      hide NextFromAmount0, NextFromAmount1, IsFloor, IsCeil, CeilDiv;
      var n := liquidity * Q96;
      Product(n, s);
      Product(x, s);
      if n + x * s < U256 {
        CeilIs(n * s, n + x * s);
      } else {
        FloorIs(n, s);
        QuotientIs(n, s);
        CeilIs(n, n / s + x);
      }
    }
  }

  lemma FeeCharges(amountIn: nat, feePips: nat)
    requires feePips <= MAX_SWAP_FEE && FeeOn(amountIn, feePips).Ok?
    ensures ChargesFee(amountIn, feePips, FeeOn(amountIn, feePips).value)
  {
    if feePips < MAX_SWAP_FEE {
      MulDivUpIsCeil(amountIn, feePips, MAX_SWAP_FEE - feePips);
      Product(amountIn, feePips);
      CeilIs(amountIn * feePips, MAX_SWAP_FEE - feePips);
      hide MulDivRoundingUp, CeilDiv, IsCeil;
    }
  }

  /** Every step that succeeds has its figures. */
  lemma StepFigures(s: nat, t: nat, liquidity: nat, remaining: nat, feePips: nat)
    requires Sized(s, t, liquidity) && s > 0 && feePips <= MAX_SWAP_FEE
    requires ComputeSwapStep(s, t, liquidity, remaining, feePips).Ok?
    ensures Figures(s, t, liquidity, remaining, feePips, ComputeSwapStep(s, t, liquidity, remaining, feePips).value)
  {
    hide LessFee, FeeOn, Cost, Payout, NextFromInput, Pays, Costs, ChargesFee, MovesTo, IsFloor;
    StepSound(s, t, liquidity, remaining, feePips);
    var step := ComputeSwapStep(s, t, liquidity, remaining, feePips).value;
    PayoutPays(s, step.sqrtNext, liquidity, s >= t);
    CostCosts(s, t, liquidity);
    if step.sqrtNext == t {
      FeeCharges(step.amountIn, feePips);
    } else {
      MoveMovesTo(s, liquidity, step.amountIn, s >= t);
      LessFeeIs(remaining, feePips);
    }
  }

  lemma LessFeeIs(remaining: nat, feePips: nat)
    requires feePips <= MAX_SWAP_FEE && LessFee(remaining, feePips).Ok?
    ensures IsFloor(LessFee(remaining, feePips).value, remaining * (MAX_SWAP_FEE - feePips), MAX_SWAP_FEE)
  {
    MulDivIs(remaining, MAX_SWAP_FEE - feePips, MAX_SWAP_FEE);
    var all, d := remaining * (MAX_SWAP_FEE - feePips), MAX_SWAP_FEE;
    FloorIs(all, d);
    hide MulDiv, IsFloor;
  }
}
