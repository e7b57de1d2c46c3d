/** The clearing checks in their own order with checked 256-bit arithmetic (verifier/core/src). */
module Verifier {
  import opened Common
  import opened Solutions

  const TWO_256: nat := 0x1_0000000000000000_0000000000000000_0000000000000000_0000000000000000
  const TWO_255: nat := 0x8000000000000000_0000000000000000_0000000000000000_0000000000000000

  type U256 = x: nat | x < TWO_256
  type I256 = x: int | 0 <= x + TWO_255 && x < TWO_255
  type U16 = x: nat | x < 0x1_0000

  datatype VerifyError =
    | MalformedPackedIntents(length: nat)
    | MalformedPackedExecutions(length: nat)
    | ArrayLengthMismatch
    | IntentIndexOutOfRange(index: nat)
    | TokenIndexOutOfRange(token: nat)
    | OverfilledIntent(index: nat, executedSell: nat, sellAmount: nat)
    | PartialFillNotAllowed(index: nat)
    | LimitViolated(index: nat)
    | NonUniformPrice(index: nat)
    | ValueNotConserved(token: nat, balance: int)
    | PriceOutsideBand(token: nat, price: nat, reference: nat, bps: nat)
    | WorseThanBaseline(index: nat, executedBuy: nat, baseline: nat)
    | ReservedBytesNotZero(index: nat)
    | ArithmeticOverflow

  type VerifyResult<T> = Result<T, VerifyError>

  // ----- checked arithmetic, math.rs

  function Mul(a: U256, b: U256): VerifyResult<U256>
  {
    if a * b < TWO_256 then Ok(a * b) else Err(ArithmeticOverflow)
  }

  function Add(a: U256, b: U256): VerifyResult<U256>
  {
    if a + b < TWO_256 then Ok(a + b) else Err(ArithmeticOverflow)
  }

  function LimitRespected(executedBuy: U256, sellAmount: U256, minBuyAmount: U256,
      executedSell: U256): VerifyResult<bool>
  {
    var realised :- Mul(executedBuy, sellAmount);
    var asked :- Mul(minBuyAmount, executedSell);
    Ok(realised >= asked)
  }

  function FeeWithinBand(valueIn: U256, valueOut: U256, maxFeeBps: U16): VerifyResult<bool>
  {
    if valueOut > valueIn then Ok(false)
    else
      var withheld :- Mul(valueIn - valueOut, BPS);
      var ceiling :- Mul(valueIn, maxFeeBps);
      Ok(withheld <= ceiling)
  }

  function WithinBand(price: U256, reference: U256, maxDeviationBps: U16): VerifyResult<bool>
  {
    var diff := if price > reference then price - reference else reference - price;
    var off :- Mul(diff, BPS);
    var allowed :- Mul(reference, maxDeviationBps);
    Ok(off <= allowed)
  }

  // ----- decoding, decode.rs

  datatype PackedIntent = PackedIntent(sellTokenIndex: nat, buyTokenIndex: nat, flags: Byte, sellAmount: U256,
    minBuyAmount: U256)

  datatype PackedExecution = PackedExecution(intentIndex: nat, executedSell: U256, executedBuy: U256)

  lemma Pow256Values()
    ensures Pow256(2) == 0x1_0000 && Pow256(4) == 0x1_0000_0000 && Pow256(32) == TWO_256
  {
    assert Pow256(8) == 0x1_0000000000000000;
    assert Pow256(16) == 0x1_0000000000000000_0000000000000000;
    assert Pow256(24) == 0x1_0000000000000000_0000000000000000_0000000000000000;
  }

  /** A 32 byte big-endian word. */
  function Word(bytes: seq<Byte>): U256
    requires |bytes| == 32
  {
    FromBigEndianBound(bytes);
    Pow256Values();
    FromBigEndian(bytes)
  }

  function IntentAt(packed: seq<Byte>, index: nat): VerifyResult<PackedIntent>
    requires STRIDE * index + STRIDE <= |packed|
  {
    var word := packed[STRIDE * index..STRIDE * index + STRIDE];
    if word[5] != 0 || word[6] != 0 || word[7] != 0 then Err(ReservedBytesNotZero(index))
    else Ok(PackedIntent(FromBigEndian(word[0..2]), FromBigEndian(word[2..4]), word[4], Word(word[8..40]),
      Word(word[40..72])))
  }

  function ExecutionAt(packed: seq<Byte>, index: nat): VerifyResult<PackedExecution>
    requires STRIDE * index + STRIDE <= |packed|
  {
    var word := packed[STRIDE * index..STRIDE * index + STRIDE];
    if word[4..8] != [0, 0, 0, 0] then Err(ReservedBytesNotZero(index))
    else Ok(PackedExecution(FromBigEndian(word[0..4]), Word(word[8..40]), Word(word[40..72])))
  }

  lemma IntentFields(i: Intent, tokens: seq<Address>)
    requires IntentFits(i, tokens)
    ensures var word := PackIntent(i, tokens);
      && word[0..2] == BigEndian(TokenIndex(tokens, i.sellToken).value, 2)
      && word[2..4] == BigEndian(TokenIndex(tokens, i.buyToken).value, 2)
      && word[4] == i.flags && word[5] == word[6] == word[7] == 0
      && word[8..40] == BigEndian(i.sellAmount, 32) && word[40..72] == BigEndian(i.minBuyAmount, 32)
  {
    hide BigEndian, TokenIndex;
  }

  /** Decoding record k of packed intents gives back every field of intent k, and its reserved bytes pass. */
  lemma IntentRoundTrip(intents: seq<Intent>, tokens: seq<Address>, k: nat)
    requires PackIntents(intents, tokens).Some?
    requires k < |intents|
    ensures |PackIntents(intents, tokens).value| == STRIDE * |intents|
    ensures IntentFits(intents[k], tokens)
    ensures intents[k].sellAmount < TWO_256 && intents[k].minBuyAmount < TWO_256
    ensures IntentAt(PackIntents(intents, tokens).value, k) == Ok(PackedIntent(
      TokenIndex(tokens, intents[k].sellToken).value, TokenIndex(tokens, intents[k].buyToken).value,
      intents[k].flags, intents[k].sellAmount, intents[k].minBuyAmount))
  {
    PackIntentsAt(intents, tokens);
    Pow256Values();
    var i := intents[k];
    assert IntentFits(i, tokens);
    hide PackIntents, PackIntent, BigEndian, FromBigEndian;
    IntentFields(i, tokens);
    BigEndianRoundTrip(TokenIndex(tokens, i.sellToken).value, 2);
    BigEndianRoundTrip(TokenIndex(tokens, i.buyToken).value, 2);
    BigEndianRoundTrip(i.sellAmount, 32);
    BigEndianRoundTrip(i.minBuyAmount, 32);
  }

  /** Decoding record k of packed executions gives back execution k. */
  lemma ExecutionRoundTrip(executions: seq<Execution>, k: nat)
    requires PackExecutions(executions).Some?
    requires k < |executions|
    ensures |PackExecutions(executions).value| == STRIDE * |executions|
    ensures executions[k].executedSell < TWO_256 && executions[k].executedBuy < TWO_256
    ensures ExecutionAt(PackExecutions(executions).value, k) == Ok(PackedExecution(
      executions[k].intentIndex, executions[k].executedSell, executions[k].executedBuy))
  {
    PackExecutionsAt(executions);
    Pow256Values();
    var e := executions[k];
    assert ExecutionFits(e);
    var word := PackExecution(e);
    assert word[0..4] == BigEndian(e.intentIndex, 4) && word[4..8] == [0, 0, 0, 0];
    assert word[8..40] == BigEndian(e.executedSell, 32) && word[40..72] == BigEndian(e.executedBuy, 32);
    BigEndianRoundTrip(e.intentIndex, 4);
    BigEndianRoundTrip(e.executedSell, 32);
    BigEndianRoundTrip(e.executedBuy, 32);
  }

  // ----- verify, verify.rs

  datatype VerifyInput = VerifyInput(
    packedIntents: seq<Byte>,
    packedExecutions: seq<Byte>,
    tokenCount: nat,
    prices: seq<U256>,
    venueDeltas: seq<I256>,
    oraclePrices: seq<U256>,
    baselineQuotes: seq<U256>,
    maxDeviationBps: U16,
    maxFeeBps: U16)
  {
    function IntentCount(): nat { |packedIntents| / STRIDE }

    function ExecutionCount(): nat { |packedExecutions| / STRIDE }

    /** What the length checks at the top of verify leave true. */
    predicate WellSized()
    {
      && |packedIntents| % STRIDE == 0 && |packedExecutions| % STRIDE == 0
      && tokenCount == |prices| == |venueDeltas| == |oraclePrices|
      && |baselineQuotes| == ExecutionCount()
    }
  }

  /** The running totals of the execution loop. */
  datatype Totals = Totals(pulled: seq<U256>, delivered: seq<U256>, savings: U256)

  function Zeros(n: nat): (r: seq<U256>)
    ensures |r| == n && forall t :: 0 <= t < n ==> r[t] == 0
  {
    seq(n, _ => 0)
  }

  function CheckUniformPrice(e: PackedExecution, sellPrice: U256, buyPrice: U256, maxFeeBps: U16): VerifyResult<()>
  {
    var valueIn :- Mul(e.executedSell, sellPrice);
    var valueOut :- Mul(e.executedBuy, buyPrice);
    var holds :- FeeWithinBand(valueIn, valueOut, maxFeeBps);
    if holds then Ok(()) else Err(NonUniformPrice(e.intentIndex))
  }

  /** Every check on execution k, in order, giving the intent and execution it settles. */
  function CheckExecution(input: VerifyInput, k: nat): (r: VerifyResult<(PackedIntent, PackedExecution)>)
    requires input.WellSized()
    requires k < input.ExecutionCount()
    ensures r.Ok? ==>
      && r.value.0.sellTokenIndex < input.tokenCount && r.value.0.buyTokenIndex < input.tokenCount
      && r.value.1.executedBuy >= input.baselineQuotes[k]
  {
    var e :- ExecutionAt(input.packedExecutions, k);
    if e.intentIndex >= input.IntentCount() then Err(IntentIndexOutOfRange(e.intentIndex)) else
    var i :- IntentAt(input.packedIntents, e.intentIndex);
    if i.sellTokenIndex >= input.tokenCount then Err(TokenIndexOutOfRange(i.sellTokenIndex)) else
    if i.buyTokenIndex >= input.tokenCount then Err(TokenIndexOutOfRange(i.buyTokenIndex)) else
    if e.executedSell > i.sellAmount then Err(OverfilledIntent(e.intentIndex, e.executedSell, i.sellAmount)) else
    if e.executedSell != i.sellAmount && i.flags % 2 == 0 then Err(PartialFillNotAllowed(e.intentIndex)) else
    var respected :- LimitRespected(e.executedBuy, i.sellAmount, i.minBuyAmount, e.executedSell);
    if !respected then Err(LimitViolated(e.intentIndex)) else
    var _ :- CheckUniformPrice(e, input.prices[i.sellTokenIndex], input.prices[i.buyTokenIndex], input.maxFeeBps);
    if e.executedBuy < input.baselineQuotes[k]
    then Err(WorseThanBaseline(e.intentIndex, e.executedBuy, input.baselineQuotes[k]))
    else Ok((i, e))
  }

  /** Adds execution k to the totals. */
  function Settle(input: VerifyInput, k: nat, t: Totals): (r: VerifyResult<Totals>)
    requires input.WellSized()
    requires k < input.ExecutionCount()
    requires |t.pulled| == |t.delivered| == input.tokenCount
    ensures r.Ok? ==> |r.value.pulled| == |r.value.delivered| == input.tokenCount
  {
    var (i, e) :- CheckExecution(input, k);
    var pulled :- Add(t.pulled[i.sellTokenIndex], e.executedSell);
    var delivered :- Add(t.delivered[i.buyTokenIndex], e.executedBuy);
    var priced :- Mul(e.executedBuy - input.baselineQuotes[k], input.prices[i.buyTokenIndex]);
    var savings :- Add(t.savings, priced / WAD);
    Ok(Totals(t.pulled[i.sellTokenIndex := pulled], t.delivered[i.buyTokenIndex := delivered], savings))
  }

  /** The totals after the first n executions, or the first error. */
  function Run(input: VerifyInput, n: nat): (r: VerifyResult<Totals>)
    requires input.WellSized()
    requires n <= input.ExecutionCount()
    ensures r.Ok? ==> |r.value.pulled| == |r.value.delivered| == input.tokenCount
  {
    if n == 0 then Ok(Totals(Zeros(input.tokenCount), Zeros(input.tokenCount), 0))
    else
      var t :- Run(input, n - 1);
      Settle(input, n - 1, t)
  }

  /** A token index as an error carries it, cut to sixteen bits. */
  function LowBits(t: nat): U16 { t % 0x1_0000 }

  /** The band check over the first n tokens. */
  function CheckBand(prices: seq<U256>, oraclePrices: seq<U256>, maxDeviationBps: U16, n: nat): VerifyResult<()>
    requires n <= |prices| == |oraclePrices|
  {
    if n == 0 then Ok(())
    else
      var _ :- CheckBand(prices, oraclePrices, maxDeviationBps, n - 1);
      var inside :- WithinBand(prices[n - 1], oraclePrices[n - 1], maxDeviationBps);
      if inside then Ok(()) else Err(PriceOutsideBand(LowBits(n - 1), prices[n - 1], oraclePrices[n - 1],
        maxDeviationBps))
  }

  /** Reading a uint256 as an int256, which wraps. */
  function FromRaw(x: U256): I256
  {
    if x < TWO_255 then x else x - TWO_256
  }

  /** pulled + delta - delivered on int256, each operation checked. */
  function Balance(pulled: U256, delivered: U256, delta: I256): VerifyResult<I256>
  {
    var credited := FromRaw(pulled) + delta;
    if !(0 <= credited + TWO_255 && credited < TWO_255) then Err(ArithmeticOverflow)
    else
      var balance := credited - FromRaw(delivered);
      if !(0 <= balance + TWO_255 && balance < TWO_255) then Err(ArithmeticOverflow) else Ok(balance)
  }

  function CheckConservation(pulled: seq<U256>, delivered: seq<U256>, deltas: seq<I256>, n: nat): VerifyResult<()>
    requires n <= |pulled| == |delivered| == |deltas|
  {
    if n == 0 then Ok(())
    else
      var _ :- CheckConservation(pulled, delivered, deltas, n - 1);
      var balance :- Balance(pulled[n - 1], delivered[n - 1], deltas[n - 1]);
      if balance < 0 then Err(ValueNotConserved(LowBits(n - 1), balance)) else Ok(())
  }

  /** The result verify gives, first failure first. */
  function Outcome(input: VerifyInput): VerifyResult<U256>
  {
    if |input.packedIntents| % STRIDE != 0 then Err(MalformedPackedIntents(|input.packedIntents|)) else
    if |input.packedExecutions| % STRIDE != 0 then Err(MalformedPackedExecutions(|input.packedExecutions|)) else
    if !input.WellSized() then Err(ArrayLengthMismatch) else
    var _ :- CheckBand(input.prices, input.oraclePrices, input.maxDeviationBps, input.tokenCount);
    var t :- Run(input, input.ExecutionCount());
    var _ :- CheckConservation(t.pulled, t.delivered, input.venueDeltas, input.tokenCount);
    Ok(t.savings)
  }

  // An error, once met, is what every longer prefix reports.

  lemma {:induction false} BandErrorSticks(prices: seq<U256>, oraclePrices: seq<U256>, bps: U16, n: nat, m: nat)
    requires n <= m <= |prices| == |oraclePrices|
    requires CheckBand(prices, oraclePrices, bps, n).Err?
    ensures CheckBand(prices, oraclePrices, bps, m) == CheckBand(prices, oraclePrices, bps, n)
  {
    if n < m { BandErrorSticks(prices, oraclePrices, bps, n, m - 1); }
  }

  lemma {:induction false} RunErrorSticks(input: VerifyInput, n: nat, m: nat)
    requires input.WellSized()
    requires n <= m <= input.ExecutionCount()
    requires Run(input, n).Err?
    ensures Run(input, m) == Run(input, n)
  {
    hide Settle;
    if n < m { RunErrorSticks(input, n, m - 1); }
  }

  lemma {:induction false} ConservationErrorSticks(pulled: seq<U256>, delivered: seq<U256>, deltas: seq<I256>, n: nat,
      m: nat)
    requires n <= m <= |pulled| == |delivered| == |deltas|
    requires CheckConservation(pulled, delivered, deltas, n).Err?
    ensures CheckConservation(pulled, delivered, deltas, m) == CheckConservation(pulled, delivered, deltas, n)
  {
    if n < m { ConservationErrorSticks(pulled, delivered, deltas, n, m - 1); }
  }

  method CheckBandLoop(prices: seq<U256>, oraclePrices: seq<U256>, bps: U16) returns (r: VerifyResult<()>)
    requires |prices| == |oraclePrices|
    ensures r == CheckBand(prices, oraclePrices, bps, |prices|)
  {
    for t := 0 to |prices|
      invariant CheckBand(prices, oraclePrices, bps, t) == Ok(())
    {
      var inside := WithinBand(prices[t], oraclePrices[t], bps);
      if inside.Err? || !inside.value {
        BandErrorSticks(prices, oraclePrices, bps, t + 1, |prices|);
        return if inside.Err?
          then Err(inside.error) else Err(PriceOutsideBand(LowBits(t), prices[t], oraclePrices[t], bps));
      }
    }
    r := Ok(());
  }

  method CheckConservationLoop(pulled: array<U256>, delivered: array<U256>,
      deltas: seq<I256>) returns (r: VerifyResult<()>)
    requires pulled.Length == delivered.Length == |deltas|
    ensures r == CheckConservation(pulled[..], delivered[..], deltas, |deltas|)
  {
    for t := 0 to |deltas|
      invariant CheckConservation(pulled[..], delivered[..], deltas, t) == Ok(())
    {
      var balance := Balance(pulled[t], delivered[t], deltas[t]);
      if balance.Err? || balance.value < 0 {
        ConservationErrorSticks(pulled[..], delivered[..], deltas, t + 1, |deltas|);
        return if balance.Err? then Err(balance.error) else Err(ValueNotConserved(LowBits(t), balance.value));
      }
    }
    r := Ok(());
  }

  /** The body of the execution loop: checks execution k and adds it to the two vectors. */
  method SettleInPlace(input: VerifyInput, k: nat, pulled: array<U256>, delivered: array<U256>, savings: U256)
    returns (r: VerifyResult<U256>)
    requires input.WellSized()
    requires k < input.ExecutionCount()
    requires pulled != delivered && pulled.Length == delivered.Length == input.tokenCount
    modifies pulled, delivered
    ensures match Settle(input, k, Totals(old(pulled[..]), old(delivered[..]), savings))
      case Ok(t) => r == Ok(t.savings) && pulled[..] == t.pulled && delivered[..] == t.delivered
      case Err(e) => r == Err(e)
  {
    var checked :- CheckExecution(input, k);
    var (i, e) := checked;
    var sellTotal :- Add(pulled[i.sellTokenIndex], e.executedSell);
    var buyTotal :- Add(delivered[i.buyTokenIndex], e.executedBuy);
    pulled[i.sellTokenIndex] := sellTotal;
    delivered[i.buyTokenIndex] := buyTotal;
    var priced :- Mul(e.executedBuy - input.baselineQuotes[k], input.prices[i.buyTokenIndex]);
    r := Add(savings, priced / WAD);
  }

  /** The execution loop. On success the vectors hold the totals of the whole run. */
  method RunLoop(input: VerifyInput, pulled: array<U256>, delivered: array<U256>) returns (r: VerifyResult<U256>)
    requires input.WellSized()
    requires pulled != delivered && pulled.Length == delivered.Length == input.tokenCount
    requires pulled[..] == Zeros(input.tokenCount) && delivered[..] == Zeros(input.tokenCount)
    modifies pulled, delivered
    ensures match Run(input, input.ExecutionCount())
      case Ok(t) => r == Ok(t.savings) && pulled[..] == t.pulled && delivered[..] == t.delivered
      case Err(e) => r == Err(e)
  {
    var savings: U256 := 0;
    for k := 0 to input.ExecutionCount()
      invariant Run(input, k) == Ok(Totals(pulled[..], delivered[..], savings))
    {
      var settled := SettleInPlace(input, k, pulled, delivered, savings);
      if settled.Err? {
        RunErrorSticks(input, k + 1, input.ExecutionCount());
        return settled;
      }
      savings := settled.value;
    }
    r := Ok(savings);
  }

  /** verify: the length checks, the band, one pass over the executions in place, then conservation. */
  method Verify(input: VerifyInput) returns (r: VerifyResult<U256>)
    ensures r == Outcome(input)
  {
    if |input.packedIntents| % STRIDE != 0 {
      return Err(MalformedPackedIntents(|input.packedIntents|));
    }
    if |input.packedExecutions| % STRIDE != 0 {
      return Err(MalformedPackedExecutions(|input.packedExecutions|));
    }
    if input.tokenCount != |input.prices| || input.tokenCount != |input.venueDeltas| {
      return Err(ArrayLengthMismatch);
    }
    if input.tokenCount != |input.oraclePrices| {
      return Err(ArrayLengthMismatch);
    }
    if |input.baselineQuotes| != input.ExecutionCount() {
      return Err(ArrayLengthMismatch);
    }
    var _ :- CheckBandLoop(input.prices, input.oraclePrices, input.maxDeviationBps);
    var pulled := new U256[input.tokenCount](_ => 0);
    var delivered := new U256[input.tokenCount](_ => 0);
    assert pulled[..] == Zeros(input.tokenCount) && delivered[..] == Zeros(input.tokenCount);
    var savings :- RunLoop(input, pulled, delivered);
    var _ :- CheckConservationLoop(pulled, delivered, input.venueDeltas);
    r := Ok(savings);
  }
}
