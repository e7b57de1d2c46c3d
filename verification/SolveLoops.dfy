/** The loops of the solver's front end, each proved to give what its specification function says
    (solver/src/clearing.ts `pairsOf`, solver/src/solve.ts, solver/src/math.ts, solver/src/solution.ts). */
module SolveLoops {
  import opened Common
  import opened Sorting
  import opened Solutions
  import opened Clearing
  import opened Allocation
  import opened Solve
  import Assembly
  import SolverMath

  // ----- pairsOf

  /** The indices of intents that do not trade against the quote. */
  function Unsupported(intents: seq<Intent>, quote: Address): seq<nat>
  {
    if intents == [] then []
    else
      var n := |intents| - 1;
      var rest := Unsupported(intents[..n], quote);
      if BaseOf(intents[n], quote).None? then rest + [n] else rest
  }

  /** The books of the first k intents: a list of bases, and each base's entries. */
  ghost predicate BooksOf(byBase: map<Address, seq<BookEntry>>, intents: seq<Intent>, quote: Address)
  {
    && (forall b :: b in byBase <==> b in BasesOf(intents, quote))
    && (forall b :: EntriesFor(intents, quote, b) == if b in byBase then byBase[b] else [])
  }

  lemma EntriesStep(intents: seq<Intent>, quote: Address, i: Intent)
    ensures forall b: Address ::
      EntriesFor(intents + [i], quote, b) == EntriesFor(intents, quote, b) +
        (if BaseOf(i, quote) == Some(b) then [BookEntry(|intents|, i)] else [])
    ensures BasesOf(intents + [i], quote) == (
      match BaseOf(i, quote)
      case None => BasesOf(intents, quote)
      case Some(base) =>
        if base in BasesOf(intents, quote) then BasesOf(intents, quote) else BasesOf(intents, quote) + [base])
    ensures Unsupported(intents + [i], quote) ==
      Unsupported(intents, quote) + (if BaseOf(i, quote).None? then [|intents|] else [])
  {
    assert (intents + [i])[..|intents|] == intents;
  }

  function AddEntry(byBase: map<Address, seq<BookEntry>>, base: Address, e: BookEntry): map<Address, seq<BookEntry>>
  {
    byBase[base := (if base in byBase then byBase[base] else []) + [e]]
  }

  lemma BooksStep(byBase: map<Address, seq<BookEntry>>, intents: seq<Intent>, quote: Address, i: Intent)
    requires BooksOf(byBase, intents, quote)
    ensures BooksOf(
      match BaseOf(i, quote) case None => byBase case Some(base) => AddEntry(byBase, base, BookEntry(|intents|, i)),
      intents + [i], quote)
  {
    EntriesStep(intents, quote, i);
    hide EntriesFor, BasesOf, BaseOf;
  }

  /** pairsOf's pass over the intents. */
  method FillBooks(intents: seq<Intent>, quote: Address) returns (byBase: map<Address, seq<BookEntry>>,
      bases: seq<Address>, unsupported: seq<nat>)
    ensures BooksOf(byBase, intents, quote) && bases == BasesOf(intents, quote)
      && unsupported == Unsupported(intents, quote)
  {
    byBase, bases, unsupported := map[], [], [];
    for k := 0 to |intents|
      invariant unsupported == Unsupported(intents[..k], quote)
      invariant bases == BasesOf(intents[..k], quote)
      invariant BooksOf(byBase, intents[..k], quote)
    {
      var i := intents[k];
      assert intents[..k + 1] == intents[..k] + [i];
      EntriesStep(intents[..k], quote, i);
      BooksStep(byBase, intents[..k], quote, i);
      BasesStep(byBase, intents[..k], quote);
      hide BooksOf, EntriesFor, BasesOf, Unsupported;
      if (i.sellToken == quote) == (i.buyToken == quote) {
        unsupported := unsupported + [k];
      } else {
        var base := if i.sellToken == quote then i.buyToken else i.sellToken;
        if base !in byBase {
          bases := bases + [base];
        }
        byBase := AddEntry(byBase, base, BookEntry(k, i));
      }
    }
    assert intents[..|intents|] == intents;
  }

  /** pairsOf: one pass filling a book per base, then the bases in order. */
  method SplitPairs(intents: seq<Intent>, quote: Address) returns (pairs: seq<Pair>, unsupported: seq<nat>)
    ensures pairs == PairsOf(intents, quote) && unsupported == Unsupported(intents, quote)
  {
    var byBase: map<Address, seq<BookEntry>>, bases: seq<Address>;
    byBase, bases, unsupported := FillBooks(intents, quote);
    SortPermutes(bases, AddressLe());
    hide EntriesFor, BasesOf, Unsupported, Sort;
    var sorted := Sort(bases, AddressLe());
    pairs := seq(|sorted|, j requires 0 <= j < |sorted| && sorted[j] in byBase =>
      Pair(sorted[j], quote, byBase[sorted[j]]));
    assert pairs == Map(sorted, PairFor(intents, quote));
  }

  lemma BasesStep(byBase: map<Address, seq<BookEntry>>, intents: seq<Intent>, quote: Address)
    requires BooksOf(byBase, intents, quote)
    ensures forall b :: b in byBase <==> b in BasesOf(intents, quote)
  {
  }

  /** Every intent that trades against the quote is an entry of the one pair of its base; the rest are unsupported. */
  lemma PairsCover(intents: seq<Intent>, quote: Address, k: nat)
    requires k < |intents|
    ensures k in Unsupported(intents, quote) <==> BaseOf(intents[k], quote).None?
    ensures BaseOf(intents[k], quote).Some? ==>
      exists p :: p in PairsOf(intents, quote) && p.base == BaseOf(intents[k], quote).value
        && BookEntry(k, intents[k]) in p.entries
  {
    Covered(intents, quote, k);
    if BaseOf(intents[k], quote).Some? {
      var base := BaseOf(intents[k], quote).value;
      SortPermutes(BasesOf(intents, quote), AddressLe());
      var sorted := Sort(BasesOf(intents, quote), AddressLe());
      hide Sort, BasesOf, EntriesFor;
      var j :| 0 <= j < |sorted| && sorted[j] == base;
      assert PairsOf(intents, quote)[j] == PairFor(intents, quote)(base);
      assert PairFor(intents, quote)(base) in PairsOf(intents, quote);
    }
  }

  lemma {:induction false} Covered(intents: seq<Intent>, quote: Address, k: nat)
    requires k < |intents|
    ensures k in Unsupported(intents, quote) <==> BaseOf(intents[k], quote).None?
    ensures BaseOf(intents[k], quote).Some? ==>
      BaseOf(intents[k], quote).value in BasesOf(intents, quote)
        && BookEntry(k, intents[k]) in EntriesFor(intents, quote, BaseOf(intents[k], quote).value)
    ensures forall j :: j in Unsupported(intents, quote) ==> j < |intents|
  {
    var n := |intents| - 1;
    if k < n {
      Covered(intents[..n], quote, k);
    } else {
      UnsupportedBelow(intents[..n], quote);
    }
  }

  lemma {:induction false} UnsupportedBelow(intents: seq<Intent>, quote: Address)
    ensures forall j :: j in Unsupported(intents, quote) ==> j < |intents|
  {
    if intents != [] {
      UnsupportedBelow(intents[..|intents| - 1], quote);
    }
  }

  // ----- orderTokens

  /** The quote first, then every other token once, ascending. */
  method OrderLoop(intents: seq<Intent>, quote: Address) returns (tokens: seq<Address>)
    ensures tokens == OrderTokens(intents, quote)
  {
    var others: seq<Address> := [];
    for k := 0 to |intents|
      invariant others == OtherTokens(intents[..k], quote)
    {
      assert intents[..k + 1][..k] == intents[..k];
      var i := intents[k];
      if i.sellToken != quote && i.sellToken !in others { others := others + [i.sellToken]; }
      if i.buyToken != quote && i.buyToken !in others { others := others + [i.buyToken]; }
    }
    assert intents[..|intents|] == intents;
    tokens := [quote] + Sort(others, AddressLe());
  }

  // ----- venueDeltas and conservation

  /** One pass over the calls, moving two entries each. */
  method DeltasLoop(calls: seq<VenueCall>, tokens: seq<Address>, deltas: array<int>)
    requires forall c :: c in calls ==> c.tokenIn in tokens && c.tokenOut in tokens
    requires deltas.Length == |tokens| && forall t :: 0 <= t < deltas.Length ==> deltas[t] == 0
    modifies deltas
    ensures forall t :: 0 <= t < deltas.Length ==> deltas[t] == SumBy(calls, SolverMath.CallDelta(tokens, t))
  {
    for k := 0 to |calls|
      invariant forall t :: 0 <= t < deltas.Length ==> deltas[t] == SumBy(calls[..k], SolverMath.CallDelta(tokens, t))
    {
      var c := calls[k];
      assert c in calls;
      var into, out := TokenIndex(tokens, c.tokenIn).value, TokenIndex(tokens, c.tokenOut).value;
      forall t | 0 <= t < deltas.Length
        ensures SumBy(calls[..k + 1], SolverMath.CallDelta(tokens, t)) ==
          SumBy(calls[..k], SolverMath.CallDelta(tokens, t))
          + (if t == out then c.minOut else 0) - (if t == into then c.amountIn else 0)
      {
        SumByStep(calls, k, SolverMath.CallDelta(tokens, t));
      }
      hide SumBy;
      deltas[into] := deltas[into] - c.amountIn;
      deltas[out] := deltas[out] + c.minOut;
    }
    assert calls[..|calls|] == calls;
  }

  /** conservation: what is pulled and delivered per token, then the balances. */
  method Conservation(s: Solution) returns (balances: array<int>)
    requires forall c :: c in s.venueCalls ==> c.tokenIn in s.tokens && c.tokenOut in s.tokens
    requires forall e :: e in s.executions ==> e.intentIndex < |s.intents|
    requires forall i :: i in s.intents ==> i.sellToken in s.tokens && i.buyToken in s.tokens
    ensures balances.Length == |s.tokens| && forall t :: 0 <= t < |s.tokens| ==>
      balances[t] == SolverMath.BalanceAt(s, t)
  {
    hide TokenIndex;
    balances := new int[|s.tokens|](_ => 0);
    DeltasLoop(s.venueCalls, s.tokens, balances);
    assert s.executions[..0] == [];
    for k := 0 to |s.executions|
      invariant forall t :: 0 <= t < balances.Length ==> balances[t] == BalanceAfter(s, t, k)
    {
      hide BalanceAfter;
      BalanceStep(s, k);
      var e := s.executions[k];
      assert e in s.executions;
      var i := s.intents[e.intentIndex];
      assert i in s.intents;
      var sold, bought := TokenIndex(s.tokens, i.sellToken).value, TokenIndex(s.tokens, i.buyToken).value;
      balances[sold] := balances[sold] + e.executedSell;
      balances[bought] := balances[bought] - e.executedBuy;
    }
    assert s.executions[..|s.executions|] == s.executions;
  }

  /** The balance of token t counting the first n executions. */
  ghost function BalanceAfter(s: Solution, t: nat, n: nat): int
    requires n <= |s.executions|
  {
    SumBy(s.executions[..n], SolverMath.PulledAt(s.intents, s.tokens, t))
    + SumBy(s.venueCalls, SolverMath.CallDelta(s.tokens, t))
    - SumBy(s.executions[..n], SolverMath.DeliveredAt(s.intents, s.tokens, t))
  }

  /** What one execution does to the balance of token t. */
  ghost function Moved(s: Solution, t: nat, e: Execution): int
  {
    SolverMath.PulledAt(s.intents, s.tokens, t)(e) - SolverMath.DeliveredAt(s.intents, s.tokens, t)(e)
  }

  lemma BalanceStep(s: Solution, k: nat)
    requires k < |s.executions|
    ensures forall t: nat :: BalanceAfter(s, t, k + 1) == BalanceAfter(s, t, k) + Moved(s, t, s.executions[k])
  {
    forall t: nat ensures BalanceAfter(s, t, k + 1) == BalanceAfter(s, t, k) + Moved(s, t, s.executions[k]) {
      SumByStep(s.executions, k, SolverMath.PulledAt(s.intents, s.tokens, t));
      SumByStep(s.executions, k, SolverMath.DeliveredAt(s.intents, s.tokens, t));
    }
  }

  // ----- tryNetted's two loops over baselines

  lemma {:induction false} OwnErrorSticks(pair: Pair, fills: seq<Fill>, venue: Venue, n: nat)
    requires Indexed(pair, fills) && n <= |fills|
    requires OwnBaselines(pair, fills[..n], venue).Err?
    ensures OwnBaselines(pair, fills, venue) == OwnBaselines(pair, fills[..n], venue)
  {
    if n == |fills| {
      assert fills[..n] == fills;
    } else {
      assert fills[..|fills| - 1][..n] == fills[..n];
      OwnErrorSticks(pair, fills[..|fills| - 1], venue, n);
    }
  }

  /** One quote per fill, leaving at the first that cannot be quoted or does worse than the venue. */
  method QuoteEach(pair: Pair, fills: seq<Fill>, venue: Venue) returns (r: Result<map<nat, nat>, SkipReason>)
    requires Indexed(pair, fills)
    ensures r == OwnBaselines(pair, fills, venue)
  {
    var baselines: map<nat, nat> := map[];
    for k := 0 to |fills|
      invariant OwnBaselines(pair, fills[..k], venue) == Ok(baselines)
    {
      assert fills[..k + 1][..k] == fills[..k];
      var f := fills[k];
      assert f in fills;
      var i := IntentAt(pair.entries, f.index).value;
      match venue(i.sellToken, i.buyToken, f.executedSell) {
        case None =>
          OwnErrorSticks(pair, fills, venue, k + 1);
          return Err(CannotQuote);
        case Some(out) =>
          if f.executedBuy < out {
            OwnErrorSticks(pair, fills, venue, k + 1);
            return Err(WorseThanBaseline);
          }
          baselines := baselines[f.index := out];
      }
    }
    assert fills[..|fills|] == fills;
    r := Ok(baselines);
  }

  lemma {:induction false} LiftErrorSticks(pair: Pair, fills: seq<Fill>, venue: Venue, tokens: seq<Address>,
      m: map<nat, nat>, n: nat)
    requires Indexed(pair, fills) && n <= |tokens|
    requires forall t :: t in tokens ==> Filter(fills, Selling(pair, t)) != []
    requires LiftAll(pair, fills, venue, tokens[..n], m).Err?
    ensures LiftAll(pair, fills, venue, tokens, m) == LiftAll(pair, fills, venue, tokens[..n], m)
  {
    if n == |tokens| {
      assert tokens[..n] == tokens;
    } else {
      assert tokens[..|tokens| - 1][..n] == tokens[..n];
      LiftErrorSticks(pair, fills, venue, tokens[..|tokens| - 1], m, n);
    }
  }

  /** One direction after another, lifted to the venue's quote on its whole volume. */
  method LiftEach(pair: Pair, fills: seq<Fill>, venue: Venue, tokens: seq<Address>,
      own: map<nat, nat>) returns (r: Result<map<nat, nat>, SkipReason>)
    requires Indexed(pair, fills)
    requires forall t :: t in tokens ==> Filter(fills, Selling(pair, t)) != []
    ensures r == LiftAll(pair, fills, venue, tokens, own)
  {
    var baselines := own;
    for k := 0 to |tokens|
      invariant LiftAll(pair, fills, venue, tokens[..k], own) == Ok(baselines)
    {
      hide LiftDirection;
      assert tokens[..k + 1][..k] == tokens[..k];
      assert tokens[k] in tokens;
      var lifted := LiftDirection(pair, fills, venue, tokens[k], baselines);
      if lifted.Err? {
        LiftErrorSticks(pair, fills, venue, tokens, own, k + 1);
        return lifted;
      }
      baselines := lifted.value;
    }
    assert tokens[..|tokens|] == tokens;
    r := Ok(baselines);
  }

  // ----- tryRouted

  /** How the split is handed out: floored shares as they come, the last entry taking what is left. */
  method SplitLoop(side: seq<BookEntry>, out: nat) returns (fills: seq<Fill>)
    requires side != [] && AllSell(side)
    ensures fills == SplitOut(side, out)
  {
    var total, n := SideTotal(side), |side| - 1;
    fills := [];
    var given := 0;
    for k := 0 to n
      invariant fills == Map(side[..k], ShareFill(out, total)) && given == SumBy(fills, BuyOf())
    {
      var f := Fill(side[k].index, side[k].intent.sellAmount, out * side[k].intent.sellAmount / total);
      assert (fills + [f])[..k] == fills;
      assert Map(side[..k + 1], ShareFill(out, total)) == fills + [f];
      given := given + f.executedBuy;
      fills := fills + [f];
    }
    GivenWithin(side, out);
    fills := fills + [Fill(side[n].index, side[n].intent.sellAmount, out - given)];
  }

  /** The retry loop: the broken intent is dropped and the rest of the side tried again. Each pass but the last drops
      one, so the loop never runs out of passes with a side still to try. */
  method RouteLoop(pair: Pair, first: seq<BookEntry>, buying: bool, ref: Reference,
      venue: Venue) returns (r: PairOutcome)
    requires AllSell(first) && |first| <= |pair.entries|
    ensures r == RouteSide(pair, first, buying, ref, venue)
  {
    var side := first;
    var pass := 0;
    while pass <= |pair.entries| && side != []
      invariant AllSell(side)
      invariant pass + |side| <= |pair.entries|
      invariant RouteSide(pair, first, buying, ref, venue) == RouteSide(pair, side, buying, ref, venue)
      decreases |pair.entries| - pass
    {
      hide SplitOut, FirstBroken, WorstImplied, UniformAt, SolverMath.WithinBand;
      var tokenIn := if buying then pair.quote else pair.base;
      var tokenOut := if buying then pair.base else pair.quote;
      var total := SideTotal(side);
      match venue(tokenIn, tokenOut, total) {
        case None => return Skipped(pair.base, CannotQuote);
        case Some(out) =>
          var fills := SplitLoop(side, out);
          match FirstBroken(side, fills) {
            case Some(broken) =>
              EntriesShorter(side, OtherEntry(broken.index), broken);
              side, pass := Filter(side, OtherEntry(broken.index)), pass + 1;
            case None =>
              var basePrice := WorstImplied(fills, buying, ref.quotePrice);
              if !SolverMath.WithinBand(basePrice, ref.basePrice, ref.maxDeviationBps) {
                return Skipped(pair.base, OutsideBand);
              }
              if exists f :: f in fills && !UniformAt(f, buying, ref.quotePrice, basePrice) {
                return Skipped(pair.base, NonUniformVenue);
              }
              return Kept(pair.base, Routed, fills, BuyMap(fills), basePrice,
                [VenueCall(tokenIn, tokenOut, total, out)]);
          }
      }
    }
    assert side == [];
    r := Skipped(pair.base, LimitsAboveVenue);
  }

  // ----- solve

  /** The loop over the pairs. */
  method SolveEach(pairs: seq<Pair>, oracle: map<Address, OracleRow>, maxDeviationBps: nat, venue: Venue,
      profile: Profile) returns (outcomes: seq<PairOutcome>)
    requires forall t :: t in oracle ==> oracle[t].price > 0
    requires forall p :: p in pairs ==> DistinctEntries(p.entries) && AllSell(p.entries)
    ensures outcomes == Map(pairs, Assembly.OutcomeFor(oracle, maxDeviationBps, venue, profile))
  {
    outcomes := [];
    for k := 0 to |pairs|
      invariant outcomes == Map(pairs[..k], Assembly.OutcomeFor(oracle, maxDeviationBps, venue, profile))
    {
      hide SolvePair;
      assert pairs[k] in pairs;
      outcomes := outcomes + [SolvePair(pairs[k], oracle, maxDeviationBps, venue, profile)];
      assert outcomes == Map(pairs[..k + 1], Assembly.OutcomeFor(oracle, maxDeviationBps, venue, profile));
    }
    assert pairs[..|pairs|] == pairs;
  }
}
