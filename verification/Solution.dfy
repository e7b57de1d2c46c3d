/** The Solution a solver submits and its packed calldata (solver/src/solution.ts). */
module Solutions {
  import opened Common
  import opened Sorting

  const WAD: nat := 1_000_000_000_000_000_000
  const BPS: nat := 10_000

  /** The most a fill may withhold of its own value, in basis points. */
  const FEE_CAP_NOTIONAL_BPS: nat := 3

  /** A token address by its numeric value, so that spelling and case play no part. */
  type Address = nat

  /** The fields of an intent that clearing and settlement read. */
  datatype Intent = Intent(sellToken: Address, buyToken: Address, sellAmount: nat, minBuyAmount: nat, flags: nat) {
    /** The PARTIAL_FILL bit. */
    predicate Partial() { flags % 2 == 1 }
  }

  datatype Execution = Execution(intentIndex: nat, executedSell: nat, executedBuy: nat)

  datatype VenueCall = VenueCall(tokenIn: Address, tokenOut: Address, amountIn: nat, minOut: nat)

  datatype Solution = Solution(
    intents: seq<Intent>,
    tokens: seq<Address>,
    prices: seq<nat>,
    executions: seq<Execution>,
    venueCalls: seq<VenueCall>,
    baselineQuotes: seq<nat>,
    claimedSavings: nat)

  // ----- the token list

  /** Position of a token, or None where the source throws. */
  function TokenIndex(tokens: seq<Address>, token: Address): (r: Option<nat>)
    ensures r.None? <==> token !in tokens
    ensures r.Some? ==> r.value < |tokens| && tokens[r.value] == token && token !in tokens[..r.value]
  {
    if tokens == [] then None
    else
      var init := tokens[..|tokens| - 1];
      match TokenIndex(init, token)
      case Some(k) =>
        assert tokens[..k] == init[..k];
        Some(k)
      case None =>
        if tokens[|tokens| - 1] == token then Some(|tokens| - 1) else None
  }

  function AddressLe(): (Address, Address) -> bool { (a: Address, b: Address) => a <= b }

  predicate Distinct<T(==)>(xs: seq<T>)
  {
    forall j, k :: 0 <= j < k < |xs| ==> xs[j] != xs[k]
  }

  /** Some intent sells or buys the token. */
  predicate Mentions(intents: seq<Intent>, t: Address)
  {
    exists i :: i in intents && (i.sellToken == t || i.buyToken == t)
  }

  function AddToken(tokens: seq<Address>, t: Address, quote: Address): (r: seq<Address>)
    requires Distinct(tokens)
    ensures Distinct(r)
    ensures forall x :: x in r <==> x in tokens || (x == t && t != quote)
  {
    if t != quote && t !in tokens then tokens + [t] else tokens
  }

  /** Tokens other than the quote, each once, in the order the intents first name them. */
  function OtherTokens(intents: seq<Intent>, quote: Address): (r: seq<Address>)
    ensures Distinct(r)
    ensures quote !in r
  {
    if intents == [] then []
    else
      var i := intents[|intents| - 1];
      AddToken(AddToken(OtherTokens(intents[..|intents| - 1], quote), i.sellToken, quote), i.buyToken, quote)
  }

  lemma {:induction false} OtherTokensExact(intents: seq<Intent>, quote: Address, t: Address)
    ensures t in OtherTokens(intents, quote) <==> t != quote && Mentions(intents, t)
  {
    if intents != [] {
      var init, i := intents[..|intents| - 1], intents[|intents| - 1];
      OtherTokensExact(init, quote, t);
      assert forall x :: x in intents <==> x in init || x == i;
    }
  }

  /** The quote asset first, the rest ascending by address. */
  function OrderTokens(intents: seq<Intent>, quote: Address): seq<Address>
  {
    [quote] + Sort(OtherTokens(intents, quote), AddressLe())
  }

  /** The list holds exactly the quote and the tokens the intents name. */
  lemma OrderTokensExact(intents: seq<Intent>, quote: Address, t: Address)
    ensures t in OrderTokens(intents, quote) <==> t == quote || Mentions(intents, t)
    ensures |OrderTokens(intents, quote)| > 0 && OrderTokens(intents, quote)[0] == quote
  {
    SortPermutes(OtherTokens(intents, quote), AddressLe());
    OtherTokensExact(intents, quote, t);
  }

  /** No token is listed twice, and after the quote the addresses strictly ascend. */
  lemma OrderTokensAscend(intents: seq<Intent>, quote: Address)
    ensures Distinct(OrderTokens(intents, quote))
    ensures forall j, k :: 1 <= j < k < |OrderTokens(intents, quote)| ==>
      OrderTokens(intents, quote)[j] < OrderTokens(intents, quote)[k]
  {
    var others := OtherTokens(intents, quote);
    var rest := Sort(others, AddressLe());
    SortPermutes(others, AddressLe());
    SortSorts(others, AddressLe());
    DistinctPermutes(others, rest);
    forall j, k | 0 <= j < k < |rest| ensures rest[j] < rest[k] {
      assert AddressLe()(rest[j], rest[k]);
    }
    assert forall j :: 0 <= j < |rest| ==> rest[j] in others;
  }

  /** A permutation of a list without repeats has no repeats. */
  lemma DistinctPermutes<T>(xs: seq<T>, ys: seq<T>)
    requires multiset(xs) == multiset(ys)
    requires Distinct(xs)
    ensures Distinct(ys)
  {
    forall j, k | 0 <= j < k < |ys| ensures ys[j] != ys[k] {
      if ys[j] == ys[k] {
        var y := ys[j];
        assert ys == ys[..j] + [y] + ys[j + 1..k] + [y] + ys[k + 1..];
        assert multiset(ys)[y] >= 2;
        DistinctMultiplicity(xs, y);
      }
    }
  }

  lemma {:induction false} DistinctMultiplicity<T>(xs: seq<T>, x: T)
    requires Distinct(xs)
    ensures multiset(xs)[x] <= 1
  {
    if xs != [] {
      var init, last := xs[..|xs| - 1], xs[|xs| - 1];
      assert xs == init + [last];
      DistinctMultiplicity(init, x);
      if last == x {
        assert x !in init;
        assert multiset(init)[x] == 0;
      }
    }
  }

  // ----- bytes

  type Byte = b: nat | b < 256

  function Pow256(n: nat): (r: nat)
    ensures r > 0
  {
    if n == 0 then 1 else 256 * Pow256(n - 1)
  }

  function BigEndian(value: nat, width: nat): (r: seq<Byte>)
    ensures |r| == width
  {
    if width == 0 then [] else BigEndian(value / 256, width - 1) + [value % 256]
  }

  function FromBigEndian(bytes: seq<Byte>): nat
  {
    if bytes == [] then 0 else FromBigEndian(bytes[..|bytes| - 1]) * 256 + bytes[|bytes| - 1]
  }

  lemma {:induction false} BigEndianRoundTrip(value: nat, width: nat)
    requires value < Pow256(width)
    ensures FromBigEndian(BigEndian(value, width)) == value
  {
    if width > 0 {
      BigEndianRoundTrip(value / 256, width - 1);
      assert BigEndian(value, width)[..width - 1] == BigEndian(value / 256, width - 1);
    }
  }

  lemma {:induction false} FromBigEndianBound(bytes: seq<Byte>)
    ensures FromBigEndian(bytes) < Pow256(|bytes|)
  {
    if bytes != [] {
      FromBigEndianBound(bytes[..|bytes| - 1]);
    }
  }

  // ----- packing, one 72 byte record each

  const STRIDE: nat := 72

  predicate IntentFits(i: Intent, tokens: seq<Address>)
  {
    && i.sellToken in tokens && i.buyToken in tokens
    && TokenIndex(tokens, i.sellToken).value < Pow256(2)
    && TokenIndex(tokens, i.buyToken).value < Pow256(2)
    && i.flags < 256 && i.sellAmount < Pow256(32) && i.minBuyAmount < Pow256(32)
  }

  function PackIntent(i: Intent, tokens: seq<Address>): (r: seq<Byte>)
    requires IntentFits(i, tokens)
    ensures |r| == STRIDE
  {
    BigEndian(TokenIndex(tokens, i.sellToken).value, 2)
    + BigEndian(TokenIndex(tokens, i.buyToken).value, 2)
    + [i.flags] + [0, 0, 0]
    + BigEndian(i.sellAmount, 32) + BigEndian(i.minBuyAmount, 32)
  }

  /** All the records in order, or None where a field does not fit its width or names no token. */
  function PackIntents(intents: seq<Intent>, tokens: seq<Address>): Option<seq<Byte>>
  {
    if forall i :: i in intents ==> IntentFits(i, tokens) then
      Some(Concat(seq(|intents|, k requires 0 <= k < |intents| && IntentFits(intents[k], tokens) =>
        PackIntent(intents[k], tokens))))
    else None
  }

  predicate ExecutionFits(e: Execution)
  {
    e.intentIndex < Pow256(4) && e.executedSell < Pow256(32) && e.executedBuy < Pow256(32)
  }

  function PackExecution(e: Execution): (r: seq<Byte>)
    ensures |r| == STRIDE
  {
    BigEndian(e.intentIndex, 4) + [0, 0, 0, 0] + BigEndian(e.executedSell, 32) + BigEndian(e.executedBuy, 32)
  }

  function PackExecutions(executions: seq<Execution>): Option<seq<Byte>>
  {
    if forall e :: e in executions ==> ExecutionFits(e) then
      Some(Concat(seq(|executions|, k requires 0 <= k < |executions| => PackExecution(executions[k]))))
    else None
  }

  /** In a list of equal-sized records joined together, record k starts at k strides. */
  lemma {:induction false} RecordAt(parts: seq<seq<Byte>>, k: nat)
    requires forall p :: p in parts ==> |p| == STRIDE
    requires k < |parts|
    ensures |Concat(parts)| == STRIDE * |parts|
    ensures Concat(parts)[STRIDE * k..STRIDE * k + STRIDE] == parts[k]
  {
    var init := parts[..|parts| - 1];
    RecordsLength(init);
    if k < |init| {
      RecordAt(init, k);
      assert Concat(parts)[STRIDE * k..STRIDE * k + STRIDE] == Concat(init)[STRIDE * k..STRIDE * k + STRIDE];
    } else {
      assert Concat(parts) == Concat(init) + parts[k] && STRIDE * k == |Concat(init)|;
      assert Concat(parts)[|Concat(init)|..] == parts[k];
    }
  }

  lemma {:induction false} RecordsLength(parts: seq<seq<Byte>>)
    requires forall p :: p in parts ==> |p| == STRIDE
    ensures |Concat(parts)| == STRIDE * |parts|
  {
    if parts != [] {
      RecordsLength(parts[..|parts| - 1]);
    }
  }

  /** Record k of the packed intents is the k-th intent's 72 bytes. */
  lemma PackIntentsAt(intents: seq<Intent>, tokens: seq<Address>)
    requires forall i :: i in intents ==> IntentFits(i, tokens)
    ensures |PackIntents(intents, tokens).value| == STRIDE * |intents|
    ensures forall k :: 0 <= k < |intents| ==>
      PackIntents(intents, tokens).value[STRIDE * k..STRIDE * k + STRIDE] == PackIntent(intents[k], tokens)
  {
    var parts := seq(|intents|, k requires 0 <= k < |intents| && IntentFits(intents[k], tokens) =>
      PackIntent(intents[k], tokens));
    RecordsLength(parts);
    forall k | 0 <= k < |intents|
      ensures PackIntents(intents, tokens).value[STRIDE * k..STRIDE * k + STRIDE] == PackIntent(intents[k], tokens)
    {
      RecordAt(parts, k);
    }
  }

  lemma PackExecutionsAt(executions: seq<Execution>)
    requires forall e :: e in executions ==> ExecutionFits(e)
    ensures |PackExecutions(executions).value| == STRIDE * |executions|
    ensures forall k :: 0 <= k < |executions| ==>
      PackExecutions(executions).value[STRIDE * k..STRIDE * k + STRIDE] == PackExecution(executions[k])
  {
    var parts := seq(|executions|, k requires 0 <= k < |executions| => PackExecution(executions[k]));
    RecordsLength(parts);
    forall k | 0 <= k < |executions|
      ensures PackExecutions(executions).value[STRIDE * k..STRIDE * k + STRIDE] == PackExecution(executions[k])
    {
      RecordAt(parts, k);
    }
  }
}
