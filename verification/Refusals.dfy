/** What a refusal says, and when verify refuses (verifier/core/src/verify.rs). */
module Refusals {
  import opened Common
  import opened Verifier
  import Acceptance
  import Guarantees
  import Solutions

  /** Execution k decodes as e and names the intent record i. */
  predicate Settles(input: VerifyInput, k: nat, e: PackedExecution, i: PackedIntent)
    requires input.WellSized() && k < input.ExecutionCount()
  {
    && ExecutionAt(input.packedExecutions, k) == Ok(e)
    && e.intentIndex < input.IntentCount()
    && IntentAt(input.packedIntents, e.intentIndex) == Ok(i)
  }

  /** Both of the record's tokens are in the list. */
  predicate Listed(input: VerifyInput, i: PackedIntent)
  {
    i.sellTokenIndex < input.tokenCount && i.buyTokenIndex < input.tokenCount
  }

  predicate AllZero(bytes: seq<Solutions.Byte>) { forall b :: b in bytes ==> b == 0 }

  /** The bytes of the record that no field uses, four in an execution and three in an intent, are zero. */
  predicate ReservedZero(packed: seq<Solutions.Byte>, index: nat, from: nat)
    requires from <= 8 && Solutions.STRIDE * index + 8 <= |packed|
  {
    AllZero(packed[Solutions.STRIDE * index + from..Solutions.STRIDE * index + 8])
  }

  /** The execution takes no more than was signed away, and the whole unless partial fills are allowed. */
  predicate SizeHolds(e: PackedExecution, i: PackedIntent)
  {
    e.executedSell <= i.sellAmount && (e.executedSell == i.sellAmount || i.flags % 2 == 1)
  }

  predicate LimitHolds(e: PackedExecution, i: PackedIntent)
  {
    e.executedBuy * i.sellAmount >= i.minBuyAmount * e.executedSell
  }

  /** What the user gets is worth no more than what the user gives, and less by at most the fee. */
  predicate PriceHolds(input: VerifyInput, e: PackedExecution, i: PackedIntent)
    requires input.WellSized() && Listed(input, i)
  {
    var valueIn, valueOut := e.executedSell * input.prices[i.sellTokenIndex],
      e.executedBuy * input.prices[i.buyTokenIndex];
    valueOut <= valueIn && (valueIn - valueOut) * Solutions.BPS <= valueIn * input.maxFeeBps
  }

  /** The error is true of execution k, and names the first thing wrong with it. */
  ghost predicate Fault(input: VerifyInput, k: nat, error: VerifyError)
    requires input.WellSized() && k < input.ExecutionCount()
  {
    match error
    case ReservedBytesNotZero(n) =>
      || (n == k && !ReservedZero(input.packedExecutions, k, 4))
      || (n < input.IntentCount() && !ReservedZero(input.packedIntents, n, 5)
          && ExecutionAt(input.packedExecutions, k).Ok?
          && ExecutionAt(input.packedExecutions, k).value.intentIndex == n)
    case IntentIndexOutOfRange(n) =>
      && ExecutionAt(input.packedExecutions, k).Ok?
      && ExecutionAt(input.packedExecutions, k).value.intentIndex == n >= input.IntentCount()
    case TokenIndexOutOfRange(t) =>
      exists e, i :: Settles(input, k, e, i) && t >= input.tokenCount
        && (t == i.sellTokenIndex || (t == i.buyTokenIndex && i.sellTokenIndex < input.tokenCount))
    case OverfilledIntent(n, sell, amount) =>
      exists e, i :: Settles(input, k, e, i) && Listed(input, i) && n == e.intentIndex
        && sell == e.executedSell > i.sellAmount == amount
    case PartialFillNotAllowed(n) =>
      exists e, i :: Settles(input, k, e, i) && Listed(input, i) && n == e.intentIndex
        && e.executedSell < i.sellAmount && i.flags % 2 == 0
    case LimitViolated(n) =>
      exists e, i :: Settles(input, k, e, i) && Listed(input, i) && n == e.intentIndex
        && SizeHolds(e, i) && !LimitHolds(e, i)
    case NonUniformPrice(n) =>
      exists e, i :: Settles(input, k, e, i) && Listed(input, i) && n == e.intentIndex
        && SizeHolds(e, i) && LimitHolds(e, i) && !PriceHolds(input, e, i)
    case WorseThanBaseline(n, bought, baseline) =>
      exists e, i :: Settles(input, k, e, i) && Listed(input, i) && n == e.intentIndex
        && SizeHolds(e, i) && LimitHolds(e, i) && PriceHolds(input, e, i)
        && bought == e.executedBuy < input.baselineQuotes[k] == baseline
    case _ => false
  }

  /** Nothing is wrong with execution k. */
  ghost predicate Fine(input: VerifyInput, k: nat)
    requires input.WellSized() && k < input.ExecutionCount()
  {
    exists e, i :: Settles(input, k, e, i) && Listed(input, i)
      && SizeHolds(e, i) && LimitHolds(e, i) && PriceHolds(input, e, i) && input.baselineQuotes[k] <= e.executedBuy
  }

  lemma ReservedBytes(packed: seq<Solutions.Byte>, k: nat)
    requires Solutions.STRIDE * k + Solutions.STRIDE <= |packed|
    ensures ExecutionAt(packed, k).Ok? <==> ReservedZero(packed, k, 4)
    ensures ExecutionAt(packed, k).Err? ==> ExecutionAt(packed, k).error == ReservedBytesNotZero(k)
    ensures IntentAt(packed, k).Ok? <==> ReservedZero(packed, k, 5)
    ensures IntentAt(packed, k).Err? ==> IntentAt(packed, k).error == ReservedBytesNotZero(k)
  {
    hide Word, Solutions.FromBigEndian;
    var word := packed[Solutions.STRIDE * k..Solutions.STRIDE * k + Solutions.STRIDE];
    var four, three := packed[Solutions.STRIDE * k + 4..Solutions.STRIDE * k + 8],
      packed[Solutions.STRIDE * k + 5..Solutions.STRIDE * k + 8];
    SliceOfSlice(packed, Solutions.STRIDE * k, Solutions.STRIDE, 4, 8);
    SliceOfSlice(packed, Solutions.STRIDE * k, Solutions.STRIDE, 5, 8);
    assert word[5] == three[0] && word[6] == three[1] && word[7] == three[2];
    ZeroBytes(four);
    ZeroBytes(three);
  }

  lemma SliceOfSlice<T>(xs: seq<T>, at: nat, n: nat, i: nat, j: nat)
    requires i <= j <= n && at + n <= |xs|
    ensures xs[at..at + n][i..j] == xs[at + i..at + j]
  {
    var whole, left, right := xs[at..at + n], xs[at..at + n][i..j], xs[at + i..at + j];
    forall k | 0 <= k < j - i ensures left[k] == right[k] {
      assert whole[i + k] == xs[at + (i + k)];
    }
  }

  lemma ZeroBytes(bytes: seq<Solutions.Byte>)
    ensures AllZero(bytes) <==> forall b :: 0 <= b < |bytes| ==> bytes[b] == 0
  {
    if AllZero(bytes) {
      forall b | 0 <= b < |bytes| ensures bytes[b] == 0 {
        assert bytes[b] in bytes;
      }
    }
  }

  /** The checks on one execution end well exactly on a fine one, and otherwise with its own fault or an overflow. */
  lemma ExecutionVerdict(input: VerifyInput, k: nat)
    requires input.WellSized() && k < input.ExecutionCount()
    ensures match CheckExecution(input, k)
      case Ok((i, e)) => Settles(input, k, e, i) && Fine(input, k)
      case Err(error) => error == ArithmeticOverflow || Fault(input, k, error)
  {
    hide ExecutionAt, IntentAt, LimitRespected, CheckUniformPrice, LimitHolds, PriceHolds, ReservedZero;
    ReservedBytes(input.packedExecutions, k);
    var decoded := ExecutionAt(input.packedExecutions, k);
    if decoded.Ok? && decoded.value.intentIndex < input.IntentCount() {
      var e := decoded.value;
      ReservedBytes(input.packedIntents, e.intentIndex);
      var named := IntentAt(input.packedIntents, e.intentIndex);
      if named.Ok? {
        assert Settles(input, k, e, named.value);
        LimitVerdict(e, named.value);
        if Listed(input, named.value) {
          PriceVerdict(input, e, named.value);
        }
      }
    }
  }

  lemma LimitVerdict(e: PackedExecution, i: PackedIntent)
    ensures match LimitRespected(e.executedBuy, i.sellAmount, i.minBuyAmount, e.executedSell)
      case Ok(respected) => respected <==> LimitHolds(e, i)
      case Err(error) => error == ArithmeticOverflow
  {
  }

  lemma PriceVerdict(input: VerifyInput, e: PackedExecution, i: PackedIntent)
    requires input.WellSized() && Listed(input, i)
    ensures match CheckUniformPrice(e, input.prices[i.sellTokenIndex], input.prices[i.buyTokenIndex], input.maxFeeBps)
      case Ok(_) => PriceHolds(input, e, i)
      case Err(error) =>
        error == ArithmeticOverflow || (error == NonUniformPrice(e.intentIndex) && !PriceHolds(input, e, i))
  {
  }

  // ----- the whole verdict

  /** A run that fails does so at its first execution that is not fine, or with an overflow. */
  lemma {:induction false} FirstFault(input: VerifyInput, n: nat) returns (k: nat)
    requires input.WellSized() && n <= input.ExecutionCount()
    requires Run(input, n).Err?
    ensures k < n && Run(input, k).Ok?
    ensures forall j :: 0 <= j < k ==> Fine(input, j)
    ensures Run(input, n).error == ArithmeticOverflow || Fault(input, k, Run(input, n).error)
  {
    hide CheckExecution, Settle, Fine, Fault;
    if Run(input, n - 1).Err? {
      k := FirstFault(input, n - 1);
    } else {
      k := n - 1;
      RunFine(input, k);
      ExecutionVerdict(input, k);
      SettleFails(input, k, Run(input, k).value);
    }
  }

  lemma SettleFails(input: VerifyInput, k: nat, t: Totals)
    requires input.WellSized() && k < input.ExecutionCount()
    requires |t.pulled| == |t.delivered| == input.tokenCount
    ensures match Settle(input, k, t)
      case Ok(_) => CheckExecution(input, k).Ok?
      case Err(error) => error == ArithmeticOverflow || CheckExecution(input, k) == Err(error)
  {
    hide CheckExecution;
  }

  lemma {:induction false} RunFine(input: VerifyInput, n: nat)
    requires input.WellSized() && n <= input.ExecutionCount()
    requires Run(input, n).Ok?
    ensures forall j :: 0 <= j < n ==> Fine(input, j)
  {
    hide CheckExecution, Settle, Fine;
    if n > 0 {
      RunFine(input, n - 1);
      ExecutionVerdict(input, n - 1);
      SettleFails(input, n - 1, Run(input, n - 1).value);
    }
  }

  /** The least token whose price is outside its band, told by true products. */
  ghost predicate FirstOutside(input: VerifyInput, t: nat)
    requires input.WellSized()
  {
    && t < input.tokenCount
    && !Guarantees.Inside(input.prices[t], input.oraclePrices[t], input.maxDeviationBps)
    && forall u :: 0 <= u < t ==> Guarantees.Inside(input.prices[u], input.oraclePrices[u], input.maxDeviationBps)
  }

  ghost predicate AllInside(input: VerifyInput)
    requires input.WellSized()
  {
    forall t :: 0 <= t < input.tokenCount ==>
      Guarantees.Inside(input.prices[t], input.oraclePrices[t], input.maxDeviationBps)
  }

  lemma {:induction false} BandVerdict(input: VerifyInput, n: nat)
    requires input.WellSized() && n <= input.tokenCount
    ensures match CheckBand(input.prices, input.oraclePrices, input.maxDeviationBps, n)
      case Ok(_) => forall t :: 0 <= t < n ==>
        Guarantees.Inside(input.prices[t], input.oraclePrices[t], input.maxDeviationBps)
      case Err(error) => error == ArithmeticOverflow || BandError(input, error)
  {
    if n > 0 {
      BandVerdict(input, n - 1);
      if CheckBand(input.prices, input.oraclePrices, input.maxDeviationBps, n - 1).Ok?
        && !Guarantees.Inside(input.prices[n - 1], input.oraclePrices[n - 1], input.maxDeviationBps) {
        assert FirstOutside(input, n - 1);
      }
    }
  }

  /** The error names the least token outside its band, by its low sixteen bits, with its own two prices. */
  ghost predicate BandError(input: VerifyInput, error: VerifyError)
    requires input.WellSized()
  {
    exists t: nat :: FirstOutside(input, t)
      && error == PriceOutsideBand(t % 0x1_0000, input.prices[t], input.oraclePrices[t], input.maxDeviationBps)
  }

  /** An unsigned word read as a signed one. */
  function Signed(x: nat): int { if x < TWO_255 then x else x - TWO_256 }

  function BalanceOf(input: VerifyInput, totals: Totals, t: nat): int
    requires t < |totals.pulled| && t < |totals.delivered| && t < |input.venueDeltas|
  {
    Signed(totals.pulled[t]) + input.venueDeltas[t] - Signed(totals.delivered[t])
  }

  lemma {:induction false} ConservationVerdict(input: VerifyInput, totals: Totals, n: nat)
    requires |totals.pulled| == |totals.delivered| == |input.venueDeltas| && n <= |input.venueDeltas|
    ensures match CheckConservation(totals.pulled, totals.delivered, input.venueDeltas, n)
      case Ok(_) => forall t :: 0 <= t < n ==> BalanceOf(input, totals, t) >= 0
      case Err(error) => error == ArithmeticOverflow || BalanceError(input, totals, error)
  {
    if n > 0 {
      ConservationVerdict(input, totals, n - 1);
      if CheckConservation(totals.pulled, totals.delivered, input.venueDeltas, n - 1).Ok?
        && BalanceOf(input, totals, n - 1) < 0 {
        assert FirstShort(input, totals, n - 1);
      }
    }
  }

  /** The least token with a negative balance. */
  ghost predicate FirstShort(input: VerifyInput, totals: Totals, t: nat)
    requires |totals.pulled| == |totals.delivered| == |input.venueDeltas|
  {
    && t < |input.venueDeltas| && BalanceOf(input, totals, t) < 0
    && forall u :: 0 <= u < t ==> BalanceOf(input, totals, u) >= 0
  }

  /** The error names that token, by its low sixteen bits, with its balance. */
  ghost predicate BalanceError(input: VerifyInput, totals: Totals, error: VerifyError)
    requires |totals.pulled| == |totals.delivered| == |input.venueDeltas|
  {
    exists t: nat :: FirstShort(input, totals, t)
      && error == ValueNotConserved(t % 0x1_0000, BalanceOf(input, totals, t))
  }

  /** The error is true of the input, and names its first fault in the order of the checks: lengths, prices, executions
      one by one, balances. An overflow names nothing. */
  ghost predicate Justified(input: VerifyInput, error: VerifyError)
  {
    match error
    case MalformedPackedIntents(n) => n == |input.packedIntents| && n % Solutions.STRIDE != 0
    case MalformedPackedExecutions(n) =>
      |input.packedIntents| % Solutions.STRIDE == 0 && n == |input.packedExecutions| && n % Solutions.STRIDE != 0
    case ArrayLengthMismatch =>
      && |input.packedIntents| % Solutions.STRIDE == 0 && |input.packedExecutions| % Solutions.STRIDE == 0
      && !input.WellSized()
    case PriceOutsideBand(_, _, _, _) => input.WellSized() && BandError(input, error)
    case ValueNotConserved(_, _) =>
      && input.WellSized() && AllInside(input)
      && (forall j :: 0 <= j < input.ExecutionCount() ==> Fine(input, j))
      && Run(input, input.ExecutionCount()).Ok?
      && BalanceError(input, Run(input, input.ExecutionCount()).value, error)
    case ArithmeticOverflow => true
    case _ =>
      && input.WellSized() && AllInside(input)
      && exists k :: 0 <= k < input.ExecutionCount() && Fault(input, k, error)
           && forall j :: 0 <= j < k ==> Fine(input, j)
  }

  /** Every refusal is justified. */
  lemma RefusalMeans(input: VerifyInput)
    ensures Outcome(input).Err? ==> Justified(input, Outcome(input).error)
  {
    hide Run, CheckBand, CheckConservation, Fine, Fault, FirstOutside, FirstShort, BalanceOf;
    if input.WellSized() {
      BandVerdict(input, input.tokenCount);
      if CheckBand(input.prices, input.oraclePrices, input.maxDeviationBps, input.tokenCount).Ok? {
        if Run(input, input.ExecutionCount()).Err? {
          var k := FirstFault(input, input.ExecutionCount());
          if Run(input, input.ExecutionCount()).error != ArithmeticOverflow {
            FaultIsOwn(input, k, Run(input, input.ExecutionCount()).error);
          }
        } else {
          RunFine(input, input.ExecutionCount());
          ConservationVerdict(input, Run(input, input.ExecutionCount()).value, input.tokenCount);
        }
      }
    }
  }

  /** Length, band and balance errors are no fault of one execution. */
  lemma FaultIsOwn(input: VerifyInput, k: nat, error: VerifyError)
    requires input.WellSized() && k < input.ExecutionCount()
    requires Fault(input, k, error)
    ensures !error.MalformedPackedIntents? && !error.MalformedPackedExecutions? && !error.ArrayLengthMismatch?
    ensures !error.PriceOutsideBand? && !error.ValueNotConserved?
  {
  }

  // ----- the verdict on inputs of bounded size

  /** Sizes a caller can read off the input: counts below 2^32, prices and amounts below 2^112. */
  ghost predicate Small(input: VerifyInput)
    requires input.WellSized()
  {
    && input.ExecutionCount() <= Acceptance.MAX_COUNT
    && (forall t :: 0 <= t < input.tokenCount ==>
          input.prices[t] < Acceptance.LIMIT && input.oraclePrices[t] < Acceptance.LIMIT
            && Abs(input.venueDeltas[t]) < TWO_255 / 2)
    && (forall k, e, i :: 0 <= k < input.ExecutionCount() && Settles(input, k, e, i) ==>
          e.executedSell < Acceptance.LIMIT && e.executedBuy < Acceptance.LIMIT
            && i.sellAmount < Acceptance.LIMIT && i.minBuyAmount < Acceptance.LIMIT)
  }

  /** Every total within n executions' worth. */
  predicate Within(t: Totals, tokenCount: nat, n: nat)
  {
    && |t.pulled| == |t.delivered| == tokenCount && n <= Acceptance.MAX_COUNT
    && (forall k :: 0 <= k < tokenCount ==>
          t.pulled[k] <= n * Acceptance.LIMIT && t.delivered[k] <= n * Acceptance.LIMIT)
    && t.savings <= n * (Acceptance.LIMIT * Acceptance.LIMIT)
  }

  lemma {:induction false} RunFits(input: VerifyInput, n: nat)
    requires input.WellSized() && Small(input) && n <= input.ExecutionCount()
    ensures match Run(input, n)
      case Ok(t) => Within(t, input.tokenCount, n)
      case Err(error) => error != ArithmeticOverflow
  {
    hide Settle, Small, Within;
    if n == 0 {
      NothingWithin(input);
    } else {
      RunFits(input, n - 1);
      if Run(input, n - 1).Ok? {
        SettleFits(input, n - 1, Run(input, n - 1).value);
      }
    }
  }

  lemma NothingWithin(input: VerifyInput)
    ensures Within(Totals(Zeros(input.tokenCount), Zeros(input.tokenCount), 0), input.tokenCount, 0)
  {
  }

  lemma CheckFits(input: VerifyInput, k: nat)
    requires input.WellSized() && Small(input) && k < input.ExecutionCount()
    ensures CheckExecution(input, k) != Err(ArithmeticOverflow)
  {
    hide ExecutionAt, IntentAt, Mul;
    ReservedBytes(input.packedExecutions, k);
    var decoded := ExecutionAt(input.packedExecutions, k);
    if decoded.Ok? && decoded.value.intentIndex < input.IntentCount() {
      var e := decoded.value;
      ReservedBytes(input.packedIntents, e.intentIndex);
      var named := IntentAt(input.packedIntents, e.intentIndex);
      if named.Ok? && Listed(input, named.value) {
        var i := named.value;
        assert Settles(input, k, e, i);
        MulFits(e.executedBuy, i.sellAmount);
        MulFits(i.minBuyAmount, e.executedSell);
        MulFits(e.executedSell, input.prices[i.sellTokenIndex]);
        MulFits(e.executedBuy, input.prices[i.buyTokenIndex]);
        FeeFits(e.executedSell * input.prices[i.sellTokenIndex], e.executedBuy * input.prices[i.buyTokenIndex],
          input.maxFeeBps);
      }
    }
  }

  lemma MulFits(a: U256, b: U256)
    requires a < Acceptance.LIMIT && b < Acceptance.LIMIT
    ensures 0 <= a * b < Acceptance.LIMIT * Acceptance.LIMIT && Mul(a, b) == Ok(a * b)
  {
    Acceptance.ProductInRange(a, b);
    MulMono2(0, a, 0, b);
  }

  lemma FeeFits(valueIn: U256, valueOut: U256, maxFeeBps: U16)
    requires valueIn < Acceptance.LIMIT * Acceptance.LIMIT
    ensures FeeWithinBand(valueIn, valueOut, maxFeeBps).Ok?
  {
    MulMono2(0, valueIn, 0, maxFeeBps);
    MulMono(maxFeeBps, 0x1_0000, valueIn);
  }

  lemma SettleFits(input: VerifyInput, k: nat, t: Totals)
    requires input.WellSized() && Small(input) && k < input.ExecutionCount()
    requires Within(t, input.tokenCount, k)
    ensures match Settle(input, k, t)
      case Ok(after) => Within(after, input.tokenCount, k + 1)
      case Err(error) => error != ArithmeticOverflow
  {
    CheckFits(input, k);
    hide CheckExecution, Mul;
    if CheckExecution(input, k).Ok? {
      var (i, e) := CheckExecution(input, k).value;
      ExecutionVerdict(input, k);
      assert Settles(input, k, e, i);
      var price := input.prices[i.buyTokenIndex];
      MulFits(e.executedBuy - input.baselineQuotes[k], price);
      FloorDiv((e.executedBuy - input.baselineQuotes[k]) * price, Solutions.WAD, 0);
      hide Small, Settles, Fine;
      MulMono(k + 1, Acceptance.MAX_COUNT, Acceptance.LIMIT);
      MulMono(k + 1, Acceptance.MAX_COUNT, Acceptance.LIMIT * Acceptance.LIMIT);
      Spread(k, 1, Acceptance.LIMIT);
      Spread(k, 1, Acceptance.LIMIT * Acceptance.LIMIT);
    }
  }

  lemma {:induction false} BandFits(input: VerifyInput, n: nat)
    requires input.WellSized() && Small(input) && n <= input.tokenCount
    ensures CheckBand(input.prices, input.oraclePrices, input.maxDeviationBps, n) != Err(ArithmeticOverflow)
  {
    if n > 0 {
      BandFits(input, n - 1);
      MulMono2(0, input.oraclePrices[n - 1], 0, input.maxDeviationBps);
      MulMono(input.maxDeviationBps, 0x1_0000, input.oraclePrices[n - 1]);
    }
  }

  lemma {:induction false} ConservationFits(input: VerifyInput, totals: Totals, n: nat)
    requires input.WellSized() && Small(input) && n <= input.tokenCount
    requires Within(totals, input.tokenCount, input.ExecutionCount())
    ensures CheckConservation(totals.pulled, totals.delivered, input.venueDeltas, n) != Err(ArithmeticOverflow)
    ensures forall t :: 0 <= t < input.tokenCount ==>
      BalanceOf(input, totals, t) == totals.pulled[t] + input.venueDeltas[t] - totals.delivered[t]
  {
    MulMono(input.ExecutionCount(), Acceptance.MAX_COUNT, Acceptance.LIMIT);
    if n > 0 {
      ConservationFits(input, totals, n - 1);
    }
  }

  /** A fine execution has no fault. */
  lemma FineHasNoFault(input: VerifyInput, k: nat, error: VerifyError)
    requires input.WellSized() && k < input.ExecutionCount()
    ensures !(Fine(input, k) && Fault(input, k, error))
  {
    hide ExecutionAt, IntentAt, ReservedZero, LimitHolds, PriceHolds;
    if Fine(input, k) {
      var e, i :| Settles(input, k, e, i) && Listed(input, i)
        && SizeHolds(e, i) && LimitHolds(e, i) && PriceHolds(input, e, i) && input.baselineQuotes[k] <= e.executedBuy;
      ReservedBytes(input.packedExecutions, k);
      ReservedBytes(input.packedIntents, e.intentIndex);
    }
  }

  /** What token t is left with, by the executions and the venue's delta. */
  function Left(input: VerifyInput, t: nat): int
    requires input.WellSized() && t < input.tokenCount
  {
    var steps := Guarantees.Steps(input, input.ExecutionCount());
    SumBy(steps, Guarantees.PulledBy(t)) + input.venueDeltas[t] - SumBy(steps, Guarantees.DeliveredBy(t))
  }

  lemma LeftIsBalance(input: VerifyInput)
    requires input.WellSized() && Small(input) && Run(input, input.ExecutionCount()).Ok?
    ensures var totals := Run(input, input.ExecutionCount()).value;
      forall t :: 0 <= t < input.tokenCount ==> BalanceOf(input, totals, t) == Left(input, t)
  {
    hide Run, SumBy, Guarantees.Steps, BalanceOf;
    RunFits(input, input.ExecutionCount());
    ConservationFits(input, Run(input, input.ExecutionCount()).value, 0);
    Guarantees.RunTallies(input, input.ExecutionCount());
  }

  /** On inputs of bounded size the verdict is exact: verify accepts if and only if every price is inside its band,
      every execution is fine and no token is left short, all by true arithmetic. */
  lemma VerdictExactly(input: VerifyInput)
    requires input.WellSized() && Small(input)
    ensures Outcome(input).Ok? <==>
      && AllInside(input)
      && (forall k :: 0 <= k < input.ExecutionCount() ==> Fine(input, k))
      && (forall t :: 0 <= t < input.tokenCount ==> Left(input, t) >= 0)
  {
    hide Small, Fine, Fault, CheckBand, CheckConservation, Run, Left, BalanceOf, FirstOutside, FirstShort,
      Guarantees.Inside;
    var n := input.ExecutionCount();
    BandVerdict(input, input.tokenCount);
    BandFits(input, input.tokenCount);
    RunFits(input, n);
    if Run(input, n).Err? {
      var k := FirstFault(input, n);
      FineHasNoFault(input, k, Run(input, n).error);
    } else {
      RunFine(input, n);
      LeftIsBalance(input);
      ConservationFits(input, Run(input, n).value, input.tokenCount);
      ConservationVerdict(input, Run(input, n).value, input.tokenCount);
      ShortIsShort(input, Run(input, n).value);
    }
    if CheckBand(input.prices, input.oraclePrices, input.maxDeviationBps, input.tokenCount).Err? {
      OutsideIsOutside(input);
    }
  }

  lemma OutsideIsOutside(input: VerifyInput)
    requires input.WellSized()
    ensures (exists t: nat :: FirstOutside(input, t)) ==> !AllInside(input)
  {
  }

  lemma ShortIsShort(input: VerifyInput, totals: Totals)
    requires |totals.pulled| == |totals.delivered| == |input.venueDeltas|
    ensures (exists t: nat :: FirstShort(input, totals, t)) ==>
      exists t :: 0 <= t < |input.venueDeltas| && BalanceOf(input, totals, t) < 0
  {
  }

  /** Neither product of the band check overflows. */
  predicate ProductsFit(price: int, reference: int, bps: int)
  {
    Abs(price - reference) * Solutions.BPS < TWO_256 && reference * bps < TWO_256
  }

  /** A batch with a price outside its band is refused, and the error names the least such token. */
  lemma OutsideBandRefused(input: VerifyInput, t: nat)
    requires input.WellSized() && FirstOutside(input, t)
    requires forall u :: 0 <= u <= t ==>
      ProductsFit(input.prices[u], input.oraclePrices[u], input.maxDeviationBps)
    ensures Outcome(input) ==
      Err(PriceOutsideBand(t % 0x1_0000, input.prices[t], input.oraclePrices[t], input.maxDeviationBps))
  {
    hide Run;
    BandHolds(input, t);
    BandErrorSticks(input.prices, input.oraclePrices, input.maxDeviationBps, t + 1, input.tokenCount);
  }

  lemma {:induction false} BandHolds(input: VerifyInput, n: nat)
    requires input.WellSized() && n <= input.tokenCount
    requires forall u :: 0 <= u < n ==>
      && Guarantees.Inside(input.prices[u], input.oraclePrices[u], input.maxDeviationBps)
      && ProductsFit(input.prices[u], input.oraclePrices[u], input.maxDeviationBps)
    ensures CheckBand(input.prices, input.oraclePrices, input.maxDeviationBps, n) == Ok(())
  {
    if n > 0 {
      BandHolds(input, n - 1);
      MulMono2(0, input.oraclePrices[n - 1], 0, input.maxDeviationBps);
    }
  }
}
