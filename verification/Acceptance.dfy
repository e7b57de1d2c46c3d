/** Whatever passes the solver's own integer checks is accepted by the checked 256-bit verifier. */
module Acceptance {
  import opened Common
  import opened Solutions
  import SolverMath
  import Verifier

  /** 2^112. Amounts and prices below it keep every product the verifier forms below 2^256. */
  const LIMIT: nat := 0x1_0000_0000_0000_0000_0000_0000_0000
  const MAX_COUNT: nat := 0x1_0000_0000

  /** Execution k meets, on unbounded integers, what the verifier asks of one execution. */
  predicate ExecutionOk(s: Solution, k: nat)
    requires k < |s.executions| == |s.baselineQuotes|
    requires |s.prices| == |s.tokens|
  {
    var e := s.executions[k];
    && e.intentIndex < |s.intents|
    && var i := s.intents[e.intentIndex];
    && i.sellToken in s.tokens && i.buyToken in s.tokens
    && e.executedSell <= i.sellAmount
    && (e.executedSell == i.sellAmount || i.Partial())
    && SolverMath.LimitRespected(e.executedBuy, i.sellAmount, i.minBuyAmount, e.executedSell)
    && SolverMath.UniformPriceHolds(e.executedSell, e.executedBuy,
         s.prices[TokenIndex(s.tokens, i.sellToken).value], s.prices[TokenIndex(s.tokens, i.buyToken).value])
    && s.baselineQuotes[k] <= e.executedBuy
  }

  predicate Settles(s: Solution, oracle: seq<nat>, maxDeviationBps: nat)
  {
    && |s.prices| == |s.tokens| == |oracle|
    && |s.executions| == |s.baselineQuotes|
    && (forall k :: 0 <= k < |s.executions| ==> ExecutionOk(s, k))
    && (forall t :: 0 <= t < |s.tokens| ==> SolverMath.WithinBand(s.prices[t], oracle[t], maxDeviationBps))
    && (forall c :: c in s.venueCalls ==> c.tokenIn in s.tokens && c.tokenOut in s.tokens)
    && (forall t :: 0 <= t < |s.tokens| ==> SolverMath.BalanceAt(s, t) >= 0)
  }

  /** Sizes a caller can read off the solution before sending it. */
  predicate InRange(s: Solution, oracle: seq<nat>)
  {
    && |s.tokens| <= 0x1_0000 && |s.intents| <= MAX_COUNT && |s.executions| <= MAX_COUNT && |s.venueCalls| <= MAX_COUNT
    && (forall i :: i in s.intents ==> i.sellAmount < LIMIT && i.minBuyAmount < LIMIT && i.flags < 256)
    && (forall e :: e in s.executions ==> e.executedSell < LIMIT && e.executedBuy < LIMIT)
    && (forall t :: 0 <= t < |s.prices| ==> s.prices[t] < LIMIT)
    && (forall t :: 0 <= t < |oracle| ==> oracle[t] < LIMIT)
    && (forall c :: c in s.venueCalls ==> c.amountIn < LIMIT && c.minOut < LIMIT)
  }

  /** The hypotheses of the acceptance theorem, in one place. */
  predicate Ready(s: Solution, oracle: seq<nat>, maxDeviationBps: nat)
  {
    && InRange(s, oracle)
    && Settles(s, oracle, maxDeviationBps)
    && (forall i :: i in s.intents ==> i.sellToken in s.tokens && i.buyToken in s.tokens)
  }

  lemma ProductInRange(a: nat, b: nat)
    requires a < LIMIT && b < LIMIT
    ensures a * b < LIMIT * LIMIT
  {
    MulMono2(a, LIMIT, b, LIMIT - 1);
  }

  lemma DeltaInRange(s: Solution, oracle: seq<nat>, t: nat)
    requires InRange(s, oracle)
    ensures -(MAX_COUNT * LIMIT) <= SumBy(s.venueCalls, SolverMath.CallDelta(s.tokens, t)) <= MAX_COUNT * LIMIT
  {
    var f := SolverMath.CallDelta(s.tokens, t);
    SumByBound(s.venueCalls, f, LIMIT);
    MulMono(|s.venueCalls|, MAX_COUNT, LIMIT);
    var g := (c: VenueCall) => -f(c);
    SumByBound(s.venueCalls, g, LIMIT);
    SumByLinear(s.venueCalls, f, -1, f, 0, g);
  }

  lemma DeltasInRange(s: Solution, oracle: seq<nat>)
    requires InRange(s, oracle)
    requires SolverMath.VenueDeltas(s.venueCalls, s.tokens).Some?
    ensures var deltas := SolverMath.VenueDeltas(s.venueCalls, s.tokens).value;
      |deltas| == |s.tokens| && forall t :: 0 <= t < |deltas| ==>
        0 <= deltas[t] + Verifier.TWO_255 && deltas[t] < Verifier.TWO_255
  {
    var deltas := SolverMath.VenueDeltas(s.venueCalls, s.tokens).value;
    forall t | 0 <= t < |deltas| ensures 0 <= deltas[t] + Verifier.TWO_255 && deltas[t] < Verifier.TWO_255 {
      DeltaInRange(s, oracle, t);
    }
  }

  lemma Fits(s: Solution, oracle: seq<nat>, maxDeviationBps: nat)
    requires Ready(s, oracle, maxDeviationBps)
    ensures forall i :: i in s.intents ==> IntentFits(i, s.tokens)
    ensures forall e :: e in s.executions ==> ExecutionFits(e)
    ensures PackIntents(s.intents, s.tokens).Some?
    ensures PackExecutions(s.executions).Some?
    ensures SolverMath.VenueDeltas(s.venueCalls, s.tokens).Some?
  {
    hide SolverMath.LimitRespected, SolverMath.UniformPriceHolds, SolverMath.WithinBand, SolverMath.BalanceAt,
      TokenIndex, Pow256;
    Verifier.Pow256Values();
    forall e | e in s.executions ensures ExecutionFits(e) {
      var k :| 0 <= k < |s.executions| && s.executions[k] == e;
      assert ExecutionOk(s, k);
    }
    forall i | i in s.intents ensures IntentFits(i, s.tokens) {
    }
  }

  function Words(xs: seq<nat>): (r: seq<Verifier.U256>)
    requires forall k :: 0 <= k < |xs| ==> xs[k] < Verifier.TWO_256
    ensures |r| == |xs| && forall k :: 0 <= k < |xs| ==> r[k] == xs[k]
  {
    seq(|xs|, k requires 0 <= k < |xs| => xs[k])
  }

  function SignedWords(xs: seq<int>): (r: seq<Verifier.I256>)
    requires forall k :: 0 <= k < |xs| ==> 0 <= xs[k] + Verifier.TWO_255 && xs[k] < Verifier.TWO_255
    ensures |r| == |xs| && forall k :: 0 <= k < |xs| ==> r[k] == xs[k]
  {
    seq(|xs|, k requires 0 <= k < |xs| => xs[k])
  }

  lemma BaselinesInRange(s: Solution, oracle: seq<nat>, maxDeviationBps: nat)
    requires Ready(s, oracle, maxDeviationBps)
    ensures forall k :: 0 <= k < |s.baselineQuotes| ==> s.baselineQuotes[k] < Verifier.TWO_256
  {
    forall k | 0 <= k < |s.baselineQuotes| ensures s.baselineQuotes[k] < Verifier.TWO_256 {
      assert ExecutionOk(s, k);
      assert s.executions[k] in s.executions;
    }
  }

  /** The call to verify for a solution: its own packing, its venue deltas, the oracle prices, the fee cap. */
  function InputOf(s: Solution, oracle: seq<nat>, maxDeviationBps: Verifier.U16): (r: Verifier.VerifyInput)
    requires Ready(s, oracle, maxDeviationBps)
    ensures r.WellSized() && r.IntentCount() == |s.intents| && r.ExecutionCount() == |s.executions|
  {
    hide ExecutionOk, PackIntents, PackExecutions, TokenIndex, SolverMath.BalanceAt, SolverMath.WithinBand;
    Fits(s, oracle, maxDeviationBps);
    DeltasInRange(s, oracle);
    BaselinesInRange(s, oracle, maxDeviationBps);
    PackIntentsAt(s.intents, s.tokens);
    PackExecutionsAt(s.executions);
    Verifier.VerifyInput(
      PackIntents(s.intents, s.tokens).value, PackExecutions(s.executions).value, |s.tokens|, Words(s.prices),
      SignedWords(SolverMath.VenueDeltas(s.venueCalls, s.tokens).value), Words(oracle), Words(s.baselineQuotes),
      maxDeviationBps, FEE_CAP_NOTIONAL_BPS)
  }

  /** The decoded forms of execution k and its intent. */
  function Decoded(s: Solution, oracle: seq<nat>, bps: nat,
      k: nat): (r: (Verifier.PackedIntent, Verifier.PackedExecution))
    requires Ready(s, oracle, bps)
    requires k < |s.executions|
  {
    assert ExecutionOk(s, k);
    var e := s.executions[k];
    var i := s.intents[e.intentIndex];
    assert e in s.executions && i in s.intents;
    (Verifier.PackedIntent(TokenIndex(s.tokens, i.sellToken).value, TokenIndex(s.tokens, i.buyToken).value, i.flags,
      i.sellAmount, i.minBuyAmount),
     Verifier.PackedExecution(e.intentIndex, e.executedSell, e.executedBuy))
  }

  /** The input carries the solution: its arrays entry by entry, and packed records that decode to its own. */
  ghost predicate Carries(input: Verifier.VerifyInput, s: Solution, oracle: seq<nat>, bps: nat)
    requires Ready(s, oracle, bps)
  {
    && input.WellSized()
    && input.IntentCount() == |s.intents| && input.ExecutionCount() == |s.executions| && input.tokenCount == |s.tokens|
    && input.maxDeviationBps == bps && input.maxFeeBps == FEE_CAP_NOTIONAL_BPS
    && (forall t :: 0 <= t < |s.tokens| ==> input.prices[t] == s.prices[t])
    && (forall t :: 0 <= t < |s.tokens| ==> input.oraclePrices[t] == oracle[t])
    && (forall t :: 0 <= t < |s.tokens| ==>
      input.venueDeltas[t] == SumBy(s.venueCalls, SolverMath.CallDelta(s.tokens, t)))
    && (forall k :: 0 <= k < |s.executions| ==> input.baselineQuotes[k] == s.baselineQuotes[k])
    && (forall k :: 0 <= k < |s.executions| ==>
      Verifier.ExecutionAt(input.packedExecutions, k) == Ok(Decoded(s, oracle, bps, k).1))
    && (forall k :: 0 <= k < |s.executions| ==>
          && Decoded(s, oracle, bps, k).1.intentIndex < |s.intents|
          && Verifier.IntentAt(input.packedIntents, Decoded(s, oracle, bps, k).1.intentIndex) ==
            Ok(Decoded(s, oracle, bps, k).0))
  }

  lemma InputCarries(s: Solution, oracle: seq<nat>, bps: Verifier.U16)
    requires Ready(s, oracle, bps)
    ensures Carries(InputOf(s, oracle, bps), s, oracle, bps)
  {
    Fits(s, oracle, bps);
    var input := InputOf(s, oracle, bps);
    forall k | 0 <= k < |s.executions|
      ensures Verifier.ExecutionAt(input.packedExecutions, k) == Ok(Decoded(s, oracle, bps, k).1)
      ensures Decoded(s, oracle, bps, k).1.intentIndex < |s.intents|
      ensures Verifier.IntentAt(input.packedIntents, Decoded(s, oracle, bps, k).1.intentIndex) ==
        Ok(Decoded(s, oracle, bps, k).0)
    {
      assert ExecutionOk(s, k);
      Verifier.ExecutionRoundTrip(s.executions, k);
      Verifier.IntentRoundTrip(s.intents, s.tokens, s.executions[k].intentIndex);
    }
  }

  /** One execution that is fine on integers passes every check, none of which overflows. */
  lemma ExecutionAccepted(input: Verifier.VerifyInput, s: Solution, oracle: seq<nat>, bps: nat, k: nat)
    requires Ready(s, oracle, bps) && Carries(input, s, oracle, bps)
    requires k < |s.executions|
    ensures Verifier.CheckExecution(input, k) == Ok(Decoded(s, oracle, bps, k))
  {
    assert ExecutionOk(s, k);
    var e := s.executions[k];
    var i := s.intents[e.intentIndex];
    assert e in s.executions && i in s.intents;
    var sellPrice, buyPrice := s.prices[TokenIndex(s.tokens, i.sellToken).value],
      s.prices[TokenIndex(s.tokens, i.buyToken).value];
    ProductInRange(e.executedBuy, i.sellAmount);
    ProductInRange(i.minBuyAmount, e.executedSell);
    ProductInRange(e.executedSell, sellPrice);
    ProductInRange(e.executedBuy, buyPrice);
    assert Verifier.LimitRespected(e.executedBuy, i.sellAmount, i.minBuyAmount, e.executedSell) == Ok(true);
    assert Verifier.CheckUniformPrice(Decoded(s, oracle, bps, k).1, sellPrice, buyPrice, FEE_CAP_NOTIONAL_BPS) ==
      Ok(());
  }

  /** The most one execution can add to the savings. */
  const SAVINGS_STEP: nat := LIMIT * LIMIT / WAD

  lemma SavingsStep(s: Solution, oracle: seq<nat>, bps: Verifier.U16, k: nat)
    requires Ready(s, oracle, bps)
    requires k < |s.executions|
    ensures ExecutionOk(s, k)
    ensures var e, b, price := s.executions[k], s.baselineQuotes[k],
      s.prices[TokenIndex(s.tokens, s.intents[s.executions[k].intentIndex].buyToken).value];
      && (e.executedBuy - b) * price < LIMIT * LIMIT
      && SolverMath.SavingsOf(e, b, s.prices, s.intents, s.tokens) == Some((e.executedBuy - b) * price / WAD)
      && (e.executedBuy - b) * price / WAD <= SAVINGS_STEP
  {
    assert ExecutionOk(s, k);
    var e, b, price := s.executions[k], s.baselineQuotes[k],
      s.prices[TokenIndex(s.tokens, s.intents[s.executions[k].intentIndex].buyToken).value];
    assert e in s.executions;
    ProductInRange(e.executedBuy - b, price);
    FloorDiv((e.executedBuy - b) * price, WAD, 0);
    FloorDiv(LIMIT * LIMIT, WAD, (e.executedBuy - b) * price / WAD);
  }

  /** The sums over executions fit well inside a signed word. */
  lemma SumsInRange(s: Solution, oracle: seq<nat>, n: nat, t: nat)
    requires InRange(s, oracle)
    requires n <= |s.executions|
    ensures 0 <= SumBy(s.executions[..n], SolverMath.PulledAt(s.intents, s.tokens, t)) <= MAX_COUNT * LIMIT
    ensures 0 <= SumBy(s.executions[..n], SolverMath.DeliveredAt(s.intents, s.tokens, t)) <= MAX_COUNT * LIMIT
  {
    var es := s.executions[..n];
    var f, g := SolverMath.PulledAt(s.intents, s.tokens, t), SolverMath.DeliveredAt(s.intents, s.tokens, t);
    assert forall e :: e in es ==> e in s.executions;
    SumByNonNegative(es, f);
    SumByNonNegative(es, g);
    SumByBound(es, f, LIMIT);
    SumByBound(es, g, LIMIT);
    MulMono(|es|, MAX_COUNT, LIMIT);
  }

  /** The totals are those of the plain integer sums over the executions run so far. */
  predicate TotalsMatch(s: Solution, n: nat, totals: Verifier.Totals)
    requires n <= |s.executions| == |s.baselineQuotes|
  {
    && |totals.pulled| == |totals.delivered| == |s.tokens|
    && (forall t :: 0 <= t < |s.tokens| ==>
      totals.pulled[t] == SumBy(s.executions[..n], SolverMath.PulledAt(s.intents, s.tokens, t)))
    && (forall t :: 0 <= t < |s.tokens| ==>
      totals.delivered[t] == SumBy(s.executions[..n], SolverMath.DeliveredAt(s.intents, s.tokens, t)))
    && SolverMath.ClaimedSavings(s.executions[..n], s.baselineQuotes[..n], s.prices, s.intents, s.tokens) ==
      Some(totals.savings)
    && totals.savings <= n * SAVINGS_STEP
  }

  lemma SettleAccepted(input: Verifier.VerifyInput, s: Solution, oracle: seq<nat>, bps: nat, n: nat,
      before: Verifier.Totals)
    requires Ready(s, oracle, bps) && Carries(input, s, oracle, bps)
    requires n < |s.executions|
    requires TotalsMatch(s, n, before)
    ensures var r := Verifier.Settle(input, n, before); r.Ok? && TotalsMatch(s, n + 1, r.value)
  {
    hide Verifier.CheckExecution, SumBy, SolverMath.ClaimedSavings, Verifier.Settle;
    ExecutionAccepted(input, s, oracle, bps, n);
    SavingsStep(s, oracle, bps, n);
    var e, d := s.executions[n], Decoded(s, oracle, bps, n);
    TotalsRoom(s, oracle, bps, n, before);
    SettleSucceeds(input, n, before, d, e.executedBuy - s.baselineQuotes[n]);
    hide Carries, Ready, InRange;
    TotalsGrow(s, n, before, Verifier.Settle(input, n, before).value);
  }

  /** The totals so far leave room for one more execution. */
  lemma TotalsRoom(s: Solution, oracle: seq<nat>, bps: nat, n: nat, before: Verifier.Totals)
    requires Ready(s, oracle, bps) && n < |s.executions|
    requires TotalsMatch(s, n, before)
    ensures forall t :: 0 <= t < |s.tokens| ==>
      before.pulled[t] + s.executions[n].executedSell < Verifier.TWO_256
        && before.delivered[t] + s.executions[n].executedBuy < Verifier.TWO_256
    ensures before.savings + SAVINGS_STEP < Verifier.TWO_256
    ensures before.savings + SAVINGS_STEP <= (n + 1) * SAVINGS_STEP
  {
    hide SumBy, SolverMath.ClaimedSavings, Settles, ExecutionOk;
    assert s.executions[n] in s.executions;
    forall t | 0 <= t < |s.tokens|
      ensures before.pulled[t] + s.executions[n].executedSell < Verifier.TWO_256
        && before.delivered[t] + s.executions[n].executedBuy < Verifier.TWO_256
    {
      SumsInRange(s, oracle, n, t);
    }
    MulMono(n, MAX_COUNT, SAVINGS_STEP);
    assert (n + 1) * SAVINGS_STEP == n * SAVINGS_STEP + SAVINGS_STEP;
  }

  /** With no sum or product out of range, settling adds the execution's terms. */
  lemma SettleSucceeds(input: Verifier.VerifyInput, n: nat, t: Verifier.Totals,
      d: (Verifier.PackedIntent, Verifier.PackedExecution), gained: nat)
    requires input.WellSized() && n < input.ExecutionCount()
    requires |t.pulled| == |t.delivered| == input.tokenCount
    requires Verifier.CheckExecution(input, n) == Ok(d)
    requires d.0.sellTokenIndex < input.tokenCount && d.0.buyTokenIndex < input.tokenCount
    requires gained == d.1.executedBuy - input.baselineQuotes[n]
    requires t.pulled[d.0.sellTokenIndex] + d.1.executedSell < Verifier.TWO_256
    requires t.delivered[d.0.buyTokenIndex] + d.1.executedBuy < Verifier.TWO_256
    requires gained * input.prices[d.0.buyTokenIndex] < Verifier.TWO_256
    requires t.savings + gained * input.prices[d.0.buyTokenIndex] / WAD < Verifier.TWO_256
    ensures var r := Verifier.Settle(input, n, t);
      && r.Ok?
      && r.value.pulled == t.pulled[d.0.sellTokenIndex := t.pulled[d.0.sellTokenIndex] + d.1.executedSell]
      && r.value.delivered == t.delivered[d.0.buyTokenIndex := t.delivered[d.0.buyTokenIndex] + d.1.executedBuy]
      && r.value.savings == t.savings + gained * input.prices[d.0.buyTokenIndex] / WAD
  {
    hide Verifier.CheckExecution;
  }

  /** Adding one execution's terms to matching totals gives matching totals. */
  lemma TotalsGrow(s: Solution, n: nat, before: Verifier.Totals, after: Verifier.Totals)
    requires n < |s.executions| == |s.baselineQuotes|
    requires TotalsMatch(s, n, before)
    requires var e := s.executions[n];
      && |after.pulled| == |after.delivered| == |s.tokens|
      && (forall t :: 0 <= t < |s.tokens| ==>
        after.pulled[t] == before.pulled[t] + SolverMath.PulledAt(s.intents, s.tokens, t)(e))
      && (forall t :: 0 <= t < |s.tokens| ==>
        after.delivered[t] == before.delivered[t] + SolverMath.DeliveredAt(s.intents, s.tokens, t)(e))
      && SolverMath.SavingsOf(e, s.baselineQuotes[n], s.prices, s.intents, s.tokens) ==
        Some(after.savings - before.savings)
      && after.savings <= (n + 1) * SAVINGS_STEP
    ensures TotalsMatch(s, n + 1, after)
  {
    var es, bs := s.executions[..n + 1], s.baselineQuotes[..n + 1];
    assert es[..n] == s.executions[..n] && bs[..n] == s.baselineQuotes[..n];
  }

  lemma {:induction false} RunAccepted(input: Verifier.VerifyInput, s: Solution, oracle: seq<nat>, bps: nat, n: nat)
    requires Ready(s, oracle, bps) && Carries(input, s, oracle, bps)
    requires n <= |s.executions|
    ensures var r := Verifier.Run(input, n); r.Ok? && TotalsMatch(s, n, r.value)
  {
    hide Carries, Ready, TotalsMatch, Verifier.Settle, Verifier.Zeros;
    CarriesSizes(input, s, oracle, bps);
    if n == 0 {
      NothingRun(s, Verifier.Zeros(|s.tokens|));
    } else {
      RunAccepted(input, s, oracle, bps, n - 1);
      SettleAccepted(input, s, oracle, bps, n - 1, Verifier.Run(input, n - 1).value);
    }
  }

  lemma CarriesSizes(input: Verifier.VerifyInput, s: Solution, oracle: seq<nat>, bps: nat)
    requires Ready(s, oracle, bps) && Carries(input, s, oracle, bps)
    ensures input.WellSized() && input.ExecutionCount() == |s.executions| == |s.baselineQuotes|
      && input.tokenCount == |s.tokens|
  {
    hide Decoded, ExecutionOk, InRange;
  }

  lemma NothingRun(s: Solution, zeros: seq<Verifier.U256>)
    requires |s.executions| == |s.baselineQuotes|
    requires zeros == Verifier.Zeros(|s.tokens|)
    ensures TotalsMatch(s, 0, Verifier.Totals(zeros, zeros, 0))
  {
  }

  lemma {:induction false} BandAccepted(prices: seq<Verifier.U256>, oracle: seq<Verifier.U256>, bps: Verifier.U16,
      n: nat)
    requires n <= |prices| == |oracle|
    requires forall t :: 0 <= t < n ==>
      prices[t] < LIMIT && oracle[t] < LIMIT && SolverMath.WithinBand(prices[t], oracle[t], bps)
    ensures Verifier.CheckBand(prices, oracle, bps, n) == Ok(())
  {
    if n > 0 {
      BandAccepted(prices, oracle, bps, n - 1);
      assert SolverMath.WithinBand(prices[n - 1], oracle[n - 1], bps);
      ProductInRange(oracle[n - 1], bps);
    }
  }

  lemma {:induction false} ConservationAccepted(s: Solution, oracle: seq<nat>, deltas: seq<Verifier.I256>,
      totals: Verifier.Totals, n: nat)
    requires InRange(s, oracle)
    requires |s.executions| == |s.baselineQuotes|
    requires TotalsMatch(s, |s.executions|, totals)
    requires |totals.pulled| == |totals.delivered| == |s.tokens|
    requires n <= |s.tokens| == |deltas|
    requires forall t :: 0 <= t < |s.tokens| ==> deltas[t] == SumBy(s.venueCalls, SolverMath.CallDelta(s.tokens, t))
    requires forall t :: 0 <= t < |s.tokens| ==> SolverMath.BalanceAt(s, t) >= 0
    ensures Verifier.CheckConservation(totals.pulled, totals.delivered, deltas, n) == Ok(())
  {
    hide SolverMath.ClaimedSavings, SumBy, InRange, TotalsMatch;
    if n > 0 {
      ConservationAccepted(s, oracle, deltas, totals, n - 1);
      OneConserved(s, oracle, deltas, totals, n - 1);
    }
  }

  lemma OneConserved(s: Solution, oracle: seq<nat>, deltas: seq<Verifier.I256>, totals: Verifier.Totals, t: nat)
    requires InRange(s, oracle)
    requires |s.executions| == |s.baselineQuotes|
    requires TotalsMatch(s, |s.executions|, totals)
    requires t < |s.tokens| == |deltas|
    requires deltas[t] == SumBy(s.venueCalls, SolverMath.CallDelta(s.tokens, t))
    requires SolverMath.BalanceAt(s, t) >= 0
    ensures |totals.pulled| == |totals.delivered| == |s.tokens|
    ensures var balance := Verifier.Balance(totals.pulled[t], totals.delivered[t], deltas[t]);
      balance.Ok? && balance.value >= 0
  {
    hide SolverMath.ClaimedSavings, SumBy, InRange;
    assert s.executions[..|s.executions|] == s.executions;
    SumsInRange(s, oracle, |s.executions|, t);
    DeltaInRange(s, oracle, t);
  }

  /** Whatever meets the integer checks is accepted after packing, and verify returns exactly the claimed savings. */
  lemma Accepted(s: Solution, oracle: seq<nat>, bps: Verifier.U16)
    requires Ready(s, oracle, bps)
    ensures var claimed := SolverMath.ClaimedSavings(s.executions, s.baselineQuotes, s.prices, s.intents, s.tokens);
      claimed.Some? && claimed.value < Verifier.TWO_256
        && Verifier.Outcome(InputOf(s, oracle, bps)) == Ok(claimed.value)
  {
    InputCarries(s, oracle, bps);
    AcceptedInput(InputOf(s, oracle, bps), s, oracle, bps);
  }

  lemma AcceptedInput(input: Verifier.VerifyInput, s: Solution, oracle: seq<nat>, bps: nat)
    requires Ready(s, oracle, bps) && Carries(input, s, oracle, bps)
    requires |input.packedIntents| % STRIDE == 0 && |input.packedExecutions| % STRIDE == 0
    ensures var claimed := SolverMath.ClaimedSavings(s.executions, s.baselineQuotes, s.prices, s.intents, s.tokens);
      claimed.Some? && claimed.value < Verifier.TWO_256 && Verifier.Outcome(input) == Ok(claimed.value)
  {
    forall t | 0 <= t < |s.tokens|
      ensures SolverMath.WithinBand(input.prices[t], input.oraclePrices[t], input.maxDeviationBps) {
      assert SolverMath.WithinBand(s.prices[t], oracle[t], bps);
    }
    BandAccepted(input.prices, input.oraclePrices, input.maxDeviationBps, |s.tokens|);
    RunAccepted(input, s, oracle, bps, |s.executions|);
    var totals := Verifier.Run(input, |s.executions|).value;
    ConservationAccepted(s, oracle, input.venueDeltas, totals, |s.tokens|);
    assert s.executions[..|s.executions|] == s.executions && s.baselineQuotes[..|s.executions|] == s.baselineQuotes;
  }
}
