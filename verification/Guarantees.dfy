/** What an accepted batch guarantees, on unbounded integers (verifier/core/src/verify.rs). */
module Guarantees {
  import opened Common
  import Solutions
  import Verifier
  import Acceptance
  import SolverMath

  /** One execution as verify settled it: both decoded records, its baseline, and the two prices it was held to. */
  datatype Step = Step(intent: Verifier.PackedIntent, execution: Verifier.PackedExecution, baseline: nat,
    sellPrice: nat, buyPrice: nat)

  function StepAt(input: Verifier.VerifyInput, k: nat): Step
    requires input.WellSized() && k < input.ExecutionCount()
    requires Verifier.CheckExecution(input, k).Ok?
  {
    var (i, e) := Verifier.CheckExecution(input, k).value;
    Step(i, e, input.baselineQuotes[k], input.prices[i.sellTokenIndex], input.prices[i.buyTokenIndex])
  }

  /** Getting through n executions is getting through n - 1 and settling the last. */
  lemma RunStep(input: Verifier.VerifyInput, n: nat)
    requires input.WellSized() && 0 < n <= input.ExecutionCount()
    requires Verifier.Run(input, n).Ok?
    ensures Verifier.Run(input, n - 1).Ok?
    ensures Verifier.Settle(input, n - 1, Verifier.Run(input, n - 1).value) == Verifier.Run(input, n)
    ensures Verifier.CheckExecution(input, n - 1).Ok?
  {
    hide Verifier.CheckExecution;
  }

  /** The executions that pass their checks among the first n: all of them, in a batch that gets through. */
  function Steps(input: Verifier.VerifyInput, n: nat): seq<Step>
    requires input.WellSized() && n <= input.ExecutionCount()
  {
    if n == 0 then []
    else Steps(input, n - 1) + (if Verifier.CheckExecution(input, n - 1).Ok? then [StepAt(input, n - 1)] else [])
  }

  function PulledBy(t: nat): Step -> int { (s: Step) =>
      if s.intent.sellTokenIndex == t then s.execution.executedSell else 0 }

  function DeliveredBy(t: nat): Step -> int { (s: Step) =>
      if s.intent.buyTokenIndex == t then s.execution.executedBuy else 0 }

  function ValueIn(): Step -> int { (s: Step) => s.execution.executedSell * s.sellPrice }

  function ValueOut(): Step -> int { (s: Step) => s.execution.executedBuy * s.buyPrice }

  function SavedBy(): Step -> int { (s: Step) => (s.execution.executedBuy - s.baseline) * s.buyPrice / Solutions.WAD }

  function SoldOf(index: nat): Step -> int { (s: Step) =>
      if s.execution.intentIndex == index then s.execution.executedSell else 0 }

  function Named(index: nat): Step -> int { (s: Step) => if s.execution.intentIndex == index then 1 else 0 }

  /** The promises to the user behind one execution: never more than signed away, the whole unless partial fills are
      allowed, never under the limit price, never under the baseline, and at most the fee withheld. */
  predicate Honoured(s: Step, maxFeeBps: nat)
  {
    && s.execution.executedSell <= s.intent.sellAmount
    && (s.execution.executedSell == s.intent.sellAmount || s.intent.flags % 2 == 1)
    && s.execution.executedBuy * s.intent.sellAmount >= s.intent.minBuyAmount * s.execution.executedSell
    && s.baseline <= s.execution.executedBuy
    && ValueOut()(s) <= ValueIn()(s)
    && (ValueIn()(s) - ValueOut()(s)) * Solutions.BPS <= ValueIn()(s) * maxFeeBps
  }

  lemma StepHonoured(input: Verifier.VerifyInput, k: nat)
    requires input.WellSized() && k < input.ExecutionCount()
    requires Verifier.CheckExecution(input, k).Ok?
    ensures Honoured(StepAt(input, k), input.maxFeeBps)
    ensures StepAt(input, k).execution.intentIndex < input.IntentCount()
    ensures Verifier.IntentAt(input.packedIntents, StepAt(input, k).execution.intentIndex) ==
      Ok(StepAt(input, k).intent)
  {
    hide Verifier.IntentAt, Verifier.ExecutionAt;
  }

  /** Every execution a run got through is honoured, and settles the record its index names. */
  lemma {:induction false} RunHonoured(input: Verifier.VerifyInput, n: nat)
    requires input.WellSized() && n <= input.ExecutionCount()
    requires Verifier.Run(input, n).Ok?
    ensures |Steps(input, n)| == n
    ensures forall s :: s in Steps(input, n) ==> Honoured(s, input.maxFeeBps)
    ensures forall s :: s in Steps(input, n) ==>
      s.execution.intentIndex < input.IntentCount()
        && Verifier.IntentAt(input.packedIntents, s.execution.intentIndex) == Ok(s.intent)
  {
    hide Verifier.Run, Verifier.Settle, Verifier.CheckExecution, Honoured, Verifier.IntentAt, StepAt;
    if n > 0 {
      RunStep(input, n);
      RunHonoured(input, n - 1);
      StepHonoured(input, n - 1);
    }
  }

  /** The totals are the sums over the steps. */
  ghost predicate Tallies(steps: seq<Step>, totals: Verifier.Totals, tokenCount: nat)
  {
    && |totals.pulled| == |totals.delivered| == tokenCount
    && (forall t :: 0 <= t < tokenCount ==>
          totals.pulled[t] == SumBy(steps, PulledBy(t)) && totals.delivered[t] == SumBy(steps, DeliveredBy(t)))
    && totals.savings == SumBy(steps, SavedBy())
  }

  lemma {:induction false} RunTallies(input: Verifier.VerifyInput, n: nat)
    requires input.WellSized() && n <= input.ExecutionCount()
    requires Verifier.Run(input, n).Ok?
    ensures Tallies(Steps(input, n), Verifier.Run(input, n).value, input.tokenCount)
  {
    hide Verifier.Settle, Verifier.CheckExecution, StepAt, PulledBy, DeliveredBy, SavedBy;
    if n > 0 {
      hide Verifier.Run, Tallies;
      RunTallies(input, n - 1);
      RunStep(input, n);
      SettleMeans(input, n - 1, Verifier.Run(input, n - 1).value);
      OneMore(Steps(input, n - 1), StepAt(input, n - 1), Verifier.Run(input, n - 1).value,
        Verifier.Run(input, n).value, input.tokenCount);
    }
  }

  lemma OneMore(steps: seq<Step>, s: Step, before: Verifier.Totals, after: Verifier.Totals, tokenCount: nat)
    requires Tallies(steps, before, tokenCount)
    requires |after.pulled| == |after.delivered| == tokenCount
    requires forall t :: 0 <= t < tokenCount ==>
      after.pulled[t] == before.pulled[t] + PulledBy(t)(s)
        && after.delivered[t] == before.delivered[t] + DeliveredBy(t)(s)
    requires after.savings == before.savings + SavedBy()(s)
    ensures Tallies(steps + [s], after, tokenCount)
  {
    assert (steps + [s])[..|steps|] == steps;
    hide PulledBy, DeliveredBy, SavedBy;
  }

  /** Settling adds one execution's share to each total. */
  lemma SettleMeans(input: Verifier.VerifyInput, k: nat, before: Verifier.Totals)
    requires input.WellSized() && k < input.ExecutionCount()
    requires |before.pulled| == |before.delivered| == input.tokenCount
    requires Verifier.Settle(input, k, before).Ok? && Verifier.CheckExecution(input, k).Ok?
    ensures var after := Verifier.Settle(input, k, before).value;
      && (forall t :: 0 <= t < input.tokenCount ==>
            && after.pulled[t] == before.pulled[t] + PulledBy(t)(StepAt(input, k))
            && after.delivered[t] == before.delivered[t] + DeliveredBy(t)(StepAt(input, k)))
      && after.savings == before.savings + SavedBy()(StepAt(input, k))
  {
    hide Verifier.CheckExecution;
  }

  /** Each token's balance is non-negative in truth exactly when its delivered total did not wrap on its own. */
  lemma {:induction false} Conserved(pulled: seq<Verifier.U256>, delivered: seq<Verifier.U256>,
      deltas: seq<Verifier.I256>, n: nat, t: nat)
    requires n <= |pulled| == |delivered| == |deltas|
    requires Verifier.CheckConservation(pulled, delivered, deltas, n).Ok?
    requires t < n
    ensures pulled[t] + deltas[t] - delivered[t] >= 0 <==> !(pulled[t] < Verifier.TWO_255 <= delivered[t])
  {
    if t < n - 1 {
      Conserved(pulled, delivered, deltas, n - 1, t);
    }
  }

  /** Whole-batch bounds add up from the per-execution ones. */
  lemma {:induction false} FeeAddsUp(steps: seq<Step>, maxFeeBps: nat)
    requires forall s :: s in steps ==> Honoured(s, maxFeeBps)
    ensures 0 <= SumBy(steps, ValueIn()) - SumBy(steps, ValueOut())
    ensures (SumBy(steps, ValueIn()) - SumBy(steps, ValueOut())) * Solutions.BPS <= SumBy(steps, ValueIn()) * maxFeeBps
  {
    if steps != [] {
      var init, last := steps[..|steps| - 1], steps[|steps| - 1];
      FeeAddsUp(init, maxFeeBps);
      assert Honoured(last, maxFeeBps);
      Spread(SumBy(init, ValueIn()), ValueIn()(last), maxFeeBps);
    }
  }

  /** A price no further from its reference than the deviation allows. */
  predicate Inside(price: nat, reference: nat, bps: nat)
  {
    Abs(price - reference) * Solutions.BPS <= reference * bps
  }

  lemma {:induction false} BandHeld(prices: seq<Verifier.U256>, oraclePrices: seq<Verifier.U256>, bps: Verifier.U16,
      n: nat, t: nat)
    requires n <= |prices| == |oraclePrices|
    requires Verifier.CheckBand(prices, oraclePrices, bps, n).Ok?
    requires t < n
    ensures Inside(prices[t], oraclePrices[t], bps)
  {
    if t < n - 1 {
      BandHeld(prices, oraclePrices, bps, n - 1, t);
    }
  }

  function Accepted(input: Verifier.VerifyInput): seq<Step>
    requires Verifier.Outcome(input).Ok?
  {
    Steps(input, input.ExecutionCount())
  }

  /** What acceptance means. Every price is within the deviation of its oracle price; every execution is honoured; what
      is withheld over the whole batch lies between zero and the fee on the whole value in; a token's true balance is
      non-negative exactly when its delivered total stayed below 2^255 or its pulled total did not; and the figure
      returned is the sum of the floored savings. */
  lemma AcceptanceMeans(input: Verifier.VerifyInput)
    requires Verifier.Outcome(input).Ok?
    ensures var steps := Accepted(input);
      && |steps| == input.ExecutionCount()
      && (forall s :: s in steps ==> Honoured(s, input.maxFeeBps))
      && 0 <= SumBy(steps, ValueIn()) - SumBy(steps, ValueOut())
      && (SumBy(steps, ValueIn()) - SumBy(steps, ValueOut())) * Solutions.BPS <=
        SumBy(steps, ValueIn()) * input.maxFeeBps
      && Verifier.Outcome(input).value == SumBy(steps, SavedBy())
    ensures input.tokenCount == |input.venueDeltas| == |input.prices| == |input.oraclePrices|
    ensures forall t :: 0 <= t < input.tokenCount ==>
      Inside(input.prices[t], input.oraclePrices[t], input.maxDeviationBps)
    ensures forall t :: 0 <= t < input.tokenCount ==>
      var pulled, delivered := SumBy(Accepted(input), PulledBy(t)), SumBy(Accepted(input), DeliveredBy(t));
      pulled + input.venueDeltas[t] - delivered >= 0 <==> !(pulled < Verifier.TWO_255 <= delivered)
  {
    var n := input.ExecutionCount();
    RunHonoured(input, n);
    RunTallies(input, n);
    FeeAddsUp(Steps(input, n), input.maxFeeBps);
    forall t | 0 <= t < input.tokenCount ensures Inside(input.prices[t], input.oraclePrices[t], input.maxDeviationBps) {
      BandHeld(input.prices, input.oraclePrices, input.maxDeviationBps, input.tokenCount, t);
    }
    var totals := Verifier.Run(input, n).value;
    hide Verifier.Run, Verifier.CheckConservation, Steps, Honoured, SumBy;
    forall t | 0 <= t < input.tokenCount
      ensures totals.pulled[t] + input.venueDeltas[t] - totals.delivered[t] >= 0 <==>
        !(totals.pulled[t] < Verifier.TWO_255 <= totals.delivered[t])
    {
      Conserved(totals.pulled, totals.delivered, input.venueDeltas, input.tokenCount, t);
    }
  }

  // ----- one intent over all its executions

  /** Executions of one intent all settle the same record. */
  lemma SameIntent(input: Verifier.VerifyInput, index: nat, i: Verifier.PackedIntent)
    requires Verifier.Outcome(input).Ok?
    requires index < input.IntentCount()
    requires Verifier.IntentAt(input.packedIntents, index) == Ok(i)
    ensures forall s :: s in Accepted(input) && s.execution.intentIndex == index ==> s.intent == i
  {
    RunHonoured(input, input.ExecutionCount());
  }

  /** Named once or never, an intent sells at most what it signed. */
  lemma {:induction false} OnceIsWithin(steps: seq<Step>, maxFeeBps: nat, index: nat, i: Verifier.PackedIntent)
    requires forall s :: s in steps ==> Honoured(s, maxFeeBps)
    requires forall s :: s in steps && s.execution.intentIndex == index ==> s.intent == i
    ensures SumBy(steps, Named(index)) >= 0 && SumBy(steps, SoldOf(index)) >= 0
    ensures SumBy(steps, Named(index)) == 0 ==> SumBy(steps, SoldOf(index)) == 0
    ensures SumBy(steps, SoldOf(index)) <= SumBy(steps, Named(index)) * i.sellAmount
    ensures i.flags % 2 == 0 ==> SumBy(steps, SoldOf(index)) == SumBy(steps, Named(index)) * i.sellAmount
  {
    if steps != [] {
      var init, last := steps[..|steps| - 1], steps[|steps| - 1];
      OnceIsWithin(init, maxFeeBps, index, i);
      assert Honoured(last, maxFeeBps);
      Spread(SumBy(init, Named(index)), Named(index)(last), i.sellAmount);
    }
  }

  /** A sum over the packed executions, as anyone holding the bytes can take it before calling verify. */
  function PackedSum(packed: seq<Solutions.Byte>, n: nat, f: Verifier.PackedExecution -> int): int
    requires Solutions.STRIDE * n <= |packed|
  {
    if n == 0 then 0
    else
      PackedSum(packed, n - 1, f) + (match Verifier.ExecutionAt(packed, n - 1) case Ok(e) => f(e) case Err(_) => 0)
  }

  function Names(index: nat): Verifier.PackedExecution -> int
  {
    (e: Verifier.PackedExecution) => if e.intentIndex == index then 1 else 0
  }

  function Sells(index: nat): Verifier.PackedExecution -> int
  {
    (e: Verifier.PackedExecution) => if e.intentIndex == index then e.executedSell else 0
  }

  /** What an accepted batch settles for an intent is what its packed executions say. */
  lemma {:induction false} StepsArePacked(input: Verifier.VerifyInput, n: nat, index: nat)
    requires input.WellSized() && n <= input.ExecutionCount()
    requires Verifier.Run(input, n).Ok?
    ensures Solutions.STRIDE * n <= |input.packedExecutions|
    ensures SumBy(Steps(input, n), Named(index)) == PackedSum(input.packedExecutions, n, Names(index))
    ensures SumBy(Steps(input, n), SoldOf(index)) == PackedSum(input.packedExecutions, n, Sells(index))
  {
    hide Verifier.Run, Verifier.Settle, Verifier.CheckExecution, Verifier.ExecutionAt, StepAt;
    if n > 0 {
      RunStep(input, n);
      StepsArePacked(input, n - 1, index);
      StepExecution(input, n - 1);
      assert Steps(input, n)[..|Steps(input, n)| - 1] == Steps(input, n - 1);
    }
  }

  /** Over an accepted batch an intent sells what the packed executions naming it say, all together. That is
      within its signed amount when at most one names it; for an intent without partial fills and with something
      to sell, exactly then. */
  lemma OverfillExactly(input: Verifier.VerifyInput, index: nat, i: Verifier.PackedIntent)
    requires Verifier.Outcome(input).Ok?
    requires index < input.IntentCount()
    requires Verifier.IntentAt(input.packedIntents, index) == Ok(i)
    ensures Solutions.STRIDE * input.ExecutionCount() <= |input.packedExecutions|
    ensures var sold := SumBy(Accepted(input), SoldOf(index));
      var named := PackedSum(input.packedExecutions, input.ExecutionCount(), Names(index));
      && sold == PackedSum(input.packedExecutions, input.ExecutionCount(), Sells(index))
      && (named <= 1 ==> sold <= i.sellAmount)
      && (i.flags % 2 == 0 && i.sellAmount > 0 ==> (sold <= i.sellAmount <==> named <= 1))
  {
    AcceptanceMeans(input);
    StepsArePacked(input, input.ExecutionCount(), index);
    SameIntent(input, index, i);
    var steps := Accepted(input);
    hide Accepted, Verifier.Outcome, Verifier.IntentAt, Honoured, SumBy, PackedSum;
    OnceIsWithin(steps, input.maxFeeBps, index, i);
    var n := SumBy(steps, Named(index));
    if n >= 2 { MulMono(2, n, i.sellAmount); }
    if n == 1 { assert 1 * i.sellAmount == i.sellAmount; }
  }

  /** A batch that fills one all-or-nothing intent twice, with a venue call behind the pair of fills. */
  function TwiceFilled(): Solutions.Solution
  {
    var i := Solutions.Intent(1, 2, 10, 10, 0);
    Solutions.Solution([i], [1, 2], [1, 1], [Solutions.Execution(0, 10, 10), Solutions.Execution(0, 10, 10)],
      [Solutions.VenueCall(1, 2, 20, 20)], [0, 0], 0)
  }

  lemma TwiceFilledTokens()
    ensures Solutions.TokenIndex([1, 2], 1) == Some(0) && Solutions.TokenIndex([1, 2], 2) == Some(1)
  {
  }

  lemma TwiceFilledReady()
    ensures Acceptance.Ready(TwiceFilled(), [1, 1], 0)
  {
    hide SumBy, Solutions.TokenIndex, SolverMath.BalanceAt;
    var s := TwiceFilled();
    TwiceFilledTokens();
    TwiceFilledBalance(0);
    TwiceFilledBalance(1);
    assert Acceptance.ExecutionOk(s, 0) && Acceptance.ExecutionOk(s, 1);
  }

  lemma TwiceFilledBalance(t: nat)
    requires t < 2
    ensures SolverMath.BalanceAt(TwiceFilled(), t) == 0
  {
    hide SumBy, Solutions.TokenIndex;
    var s := TwiceFilled();
    TwiceFilledTokens();
    var e, c := Solutions.Execution(0, 10, 10), Solutions.VenueCall(1, 2, 20, 20);
    TwoTerms(e, e, SolverMath.PulledAt(s.intents, s.tokens, t));
    TwoTerms(e, e, SolverMath.DeliveredAt(s.intents, s.tokens, t));
    OneTerm(c, SolverMath.CallDelta(s.tokens, t));
  }

  lemma OneTerm<T>(x: T, f: T -> int)
    ensures SumBy([x], f) == f(x)
  {
    assert [x][..0] == [];
  }

  lemma TwoTerms<T>(x: T, y: T, f: T -> int)
    ensures SumBy([x, y], f) == f(x) + f(y)
  {
    assert [x, y][..1] == [x];
    OneTerm(x, f);
  }

  lemma StepExecution(input: Verifier.VerifyInput, k: nat)
    requires input.WellSized() && k < input.ExecutionCount()
    requires Verifier.CheckExecution(input, k).Ok?
    ensures Verifier.ExecutionAt(input.packedExecutions, k) == Ok(StepAt(input, k).execution)
  {
    hide Verifier.IntentAt, Verifier.ExecutionAt;
  }

  /** verify judges each execution alone: some accepted batch sells an intent beyond its signed amount. */
  lemma RepeatsAreAccepted() returns (input: Verifier.VerifyInput, i: Verifier.PackedIntent)
    ensures Verifier.Outcome(input).Ok? && input.IntentCount() == 1
    ensures Verifier.IntentAt(input.packedIntents, 0) == Ok(i)
    ensures SumBy(Accepted(input), SoldOf(0)) == 20 > 10 == i.sellAmount
  {
    var s := TwiceFilled();
    TwiceFilledReady();
    hide Acceptance.Ready;
    input := Acceptance.InputOf(s, [1, 1], 0);
    Acceptance.Accepted(s, [1, 1], 0);
    Acceptance.InputCarries(s, [1, 1], 0);
    i := TwiceFilledSteps(input);
  }

  lemma TwiceFilledSteps(input: Verifier.VerifyInput) returns (i: Verifier.PackedIntent)
    requires Acceptance.Ready(TwiceFilled(), [1, 1], 0)
    requires Acceptance.Carries(input, TwiceFilled(), [1, 1], 0)
    requires Verifier.Outcome(input).Ok?
    ensures Verifier.IntentAt(input.packedIntents, 0) == Ok(i) && i.sellAmount == 10
    ensures SumBy(Accepted(input), SoldOf(0)) == 20
  {
    var s := TwiceFilled();
    hide Acceptance.Ready, Verifier.Run, Verifier.CheckExecution, Verifier.IntentAt, Verifier.ExecutionAt, SumBy,
      Acceptance.ExecutionOk;
    i := Acceptance.Decoded(s, [1, 1], 0, 0).0;
    RunStep(input, 2);
    RunStep(input, 1);
    StepExecution(input, 0);
    StepExecution(input, 1);
    hide StepAt;
    var a, b := StepAt(input, 0), StepAt(input, 1);
    assert Steps(input, 1) == [a];
    assert Accepted(input) == [a, b];
    TwoTerms(a, b, SoldOf(0));
  }

  /** One execution delivering 2^255 units of a token priced at zero, against a venue delta of minus one. */
  function WrappingInput(): Verifier.VerifyInput
  {
    WrappingFits();
    Verifier.VerifyInput(
      Solutions.PackIntents([Solutions.Intent(1, 2, 0, 0, 0)], [1, 2]).value,
      Solutions.PackExecutions([Solutions.Execution(0, 0, Verifier.TWO_255)]).value,
      2, [0, 0], [0, -1], [0, 0], [0], 0, 0)
  }

  lemma WrappingFits()
    ensures Solutions.PackIntents([Solutions.Intent(1, 2, 0, 0, 0)], [1, 2]).Some?
    ensures Solutions.PackExecutions([Solutions.Execution(0, 0, Verifier.TWO_255)]).Some?
  {
    hide Solutions.Pow256, Solutions.TokenIndex;
    Verifier.Pow256Values();
    TwiceFilledTokens();
  }

  /** The other half of the balance condition happens: a delivered total past 2^255 is read as negative, and verify
      accepts a batch whose true balance is negative. */
  lemma WrappedBalanceIsAccepted()
    ensures Verifier.Outcome(WrappingInput()) == Ok(0)
    ensures SumBy(Accepted(WrappingInput()), PulledBy(1)) == 0
    ensures SumBy(Accepted(WrappingInput()), DeliveredBy(1)) == Verifier.TWO_255
  {
    var input := WrappingInput();
    WrappingFits();
    TwiceFilledTokens();
    Verifier.IntentRoundTrip([Solutions.Intent(1, 2, 0, 0, 0)], [1, 2], 0);
    Verifier.ExecutionRoundTrip([Solutions.Execution(0, 0, Verifier.TWO_255)], 0);
    hide Solutions.PackIntents, Solutions.PackExecutions, Verifier.IntentAt, Verifier.ExecutionAt,
      Solutions.TokenIndex, SumBy;
    WrappingRun(input);
  }

  lemma WrappingRun(input: Verifier.VerifyInput)
    requires |input.packedIntents| == Solutions.STRIDE == |input.packedExecutions| && input.tokenCount == 2
    requires input.prices == input.oraclePrices == [0, 0] && input.venueDeltas == [0, -1] && input.baselineQuotes == [0]
    requires input.maxDeviationBps == 0 == input.maxFeeBps
    requires Verifier.IntentAt(input.packedIntents, 0) == Ok(Verifier.PackedIntent(0, 1, 0, 0, 0))
    requires Verifier.ExecutionAt(input.packedExecutions, 0) == Ok(Verifier.PackedExecution(0, 0, Verifier.TWO_255))
    ensures Verifier.Outcome(input) == Ok(0)
    ensures SumBy(Accepted(input), PulledBy(1)) == 0
    ensures SumBy(Accepted(input), DeliveredBy(1)) == Verifier.TWO_255
  {
    hide Verifier.IntentAt, Verifier.ExecutionAt;
    assert input.ExecutionCount() == 1 && input.IntentCount() == 1 && input.WellSized();
    var step := Step(Verifier.PackedIntent(0, 1, 0, 0, 0), Verifier.PackedExecution(0, 0, Verifier.TWO_255), 0, 0, 0);
    assert Verifier.CheckExecution(input, 0).Ok? && StepAt(input, 0) == step;
    WrappingSettles(input);
    var totals := Verifier.Run(input, 1).value;
    hide Verifier.CheckExecution, Verifier.Settle, StepAt;
    assert Verifier.CheckBand(input.prices, input.oraclePrices, 0, 1).Ok?;
    assert Verifier.CheckConservation(totals.pulled, totals.delivered, input.venueDeltas, 1).Ok?;
    hide Verifier.Run;
    assert Steps(input, 0) == [];
    assert Accepted(input) == [step];
    hide Steps;
    OneTerm(step, PulledBy(1));
    OneTerm(step, DeliveredBy(1));
  }

  lemma WrappingSettles(input: Verifier.VerifyInput)
    requires input.WellSized() && input.ExecutionCount() == 1 && input.tokenCount == 2
    requires input.prices == [0, 0] && input.baselineQuotes == [0]
    requires Verifier.CheckExecution(input, 0) ==
      Ok((Verifier.PackedIntent(0, 1, 0, 0, 0), Verifier.PackedExecution(0, 0, Verifier.TWO_255)))
    ensures Verifier.Run(input, 1) == Ok(Verifier.Totals([0, 0], [0, Verifier.TWO_255], 0))
  {
    hide Verifier.CheckExecution;
    assert Verifier.Run(input, 0) == Ok(Verifier.Totals(Verifier.Zeros(2), Verifier.Zeros(2), 0));
    assert Verifier.Zeros(2) == [0, 0];
    var t: Verifier.Totals := Verifier.Totals([0, 0], [0, 0], 0);
    assert t.delivered[1 := Verifier.TWO_255] == [0, Verifier.TWO_255] && t.pulled[0 := 0] == [0, 0];
    assert Verifier.Settle(input, 0, t) == Ok(Verifier.Totals([0, 0], [0, Verifier.TWO_255], 0));
  }
}
