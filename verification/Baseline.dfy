/** The venue floor under each direction of a solution (solver/src/baseline.ts). */
module Baseline {
  import opened Common
  import opened Solutions
  import opened Clearing
  import opened Allocation
  import opened Solve
  import opened Outcomes
  import opened Assembly
  import Acceptance
  import SolverMath

  datatype Finding = Finding(tokenIn: Address, tokenOut: Address, claimed: nat, floor: nat)

  datatype FloorCheck = FloorCheck(priced: bool, belowVenue: seq<Finding>, unquoted: seq<(Address, Address)>)

  /** Execution k sells the token at position si for the one at position bi. */
  predicate InCell(s: Solution, k: nat, si: nat, bi: nat)
    requires k < |s.executions|
  {
    SellsAtCell(s, s.executions[k], si) && BuysAtCell(s, s.executions[k], bi)
  }

  predicate SellsAtCell(s: Solution, e: Execution, si: nat)
  {
    e.intentIndex < |s.intents| && TokenIndex(s.tokens, s.intents[e.intentIndex].sellToken) == Some(si)
  }

  predicate BuysAtCell(s: Solution, e: Execution, bi: nat)
  {
    e.intentIndex < |s.intents| && TokenIndex(s.tokens, s.intents[e.intentIndex].buyToken) == Some(bi)
  }

  /** What the first n executions sell in one direction. */
  function SoldIn(s: Solution, n: nat, si: nat, bi: nat): nat
    requires n <= |s.executions|
  {
    if n == 0 then 0
    else SoldIn(s, n - 1, si, bi) + (if InCell(s, n - 1, si, bi) then s.executions[n - 1].executedSell else 0)
  }

  /** The baselines the first n executions claim in one direction. */
  function ClaimedIn(s: Solution, n: nat, si: nat, bi: nat): nat
    requires n <= |s.executions| == |s.baselineQuotes|
  {
    if n == 0 then 0
    else ClaimedIn(s, n - 1, si, bi) + (if InCell(s, n - 1, si, bi) then s.baselineQuotes[n - 1] else 0)
  }

  /** One direction's verdict added to the findings. */
  function CheckCell(s: Solution, venue: Venue, si: nat, bi: nat, c: FloorCheck): FloorCheck
    requires |s.executions| == |s.baselineQuotes|
    requires si < |s.tokens| && bi < |s.tokens|
  {
    var sold, claimed := SoldIn(s, |s.executions|, si, bi), ClaimedIn(s, |s.executions|, si, bi);
    if sold == 0 then c
    else match venue(s.tokens[si], s.tokens[bi], sold)
      case None => c.(priced := false, unquoted := c.unquoted + [(s.tokens[si], s.tokens[bi])])
      case Some(floor) =>
        if claimed < floor
          then c.(belowVenue := c.belowVenue + [Finding(s.tokens[si], s.tokens[bi], claimed, floor)]) else c
  }

  /** Row si, columns below bi, after all earlier rows. */
  function CheckCells(s: Solution, venue: Venue, si: nat, bi: nat): FloorCheck
    requires |s.executions| == |s.baselineQuotes|
    requires si <= |s.tokens| && bi <= |s.tokens| && (si == |s.tokens| ==> bi == 0)
    decreases si, bi
  {
    if bi > 0 then CheckCell(s, venue, si, bi - 1, CheckCells(s, venue, si, bi - 1))
    else if si > 0 then CheckCells(s, venue, si - 1, |s.tokens|)
    else FloorCheck(true, [], [])
  }

  function CheckFloors(s: Solution, venue: Venue): FloorCheck
    requires |s.executions| == |s.baselineQuotes|
  {
    CheckCells(s, venue, |s.tokens|, 0)
  }

  /** The two matrices hold the directions' sums over the first n executions. */
  ghost predicate Tallied(sold: array2<nat>, claimed: array2<nat>, s: Solution, n: nat)
    reads sold, claimed
    requires n <= |s.executions| == |s.baselineQuotes|
    requires sold.Length0 == sold.Length1 == claimed.Length0 == claimed.Length1 == |s.tokens|
  {
    forall si, bi :: 0 <= si < |s.tokens| && 0 <= bi < |s.tokens| ==>
      sold[si, bi] == SoldIn(s, n, si, bi) && claimed[si, bi] == ClaimedIn(s, n, si, bi)
  }

  /** The pass over the executions that fills the two matrices. */
  method FillMatrices(s: Solution, sold: array2<nat>, claimed: array2<nat>)
    requires |s.executions| == |s.baselineQuotes|
    requires forall e :: e in s.executions ==> e.intentIndex < |s.intents|
    requires forall i :: i in s.intents ==> i.sellToken in s.tokens && i.buyToken in s.tokens
    requires sold.Length0 == sold.Length1 == claimed.Length0 == claimed.Length1 == |s.tokens|
    requires sold != claimed && Tallied(sold, claimed, s, 0)
    modifies sold, claimed
    ensures Tallied(sold, claimed, s, |s.executions|)
  {
    for k := 0 to |s.executions|
      invariant Tallied(sold, claimed, s, k)
    {
      hide SoldIn, ClaimedIn, TokenIndex, SellsAtCell, BuysAtCell;
      CellOfExecution(s, k);
      var e := s.executions[k];
      assert e in s.executions;
      var i := s.intents[e.intentIndex];
      assert i in s.intents;
      var si, bi := TokenIndex(s.tokens, i.sellToken).value, TokenIndex(s.tokens, i.buyToken).value;
      TallyStep(s, k, si, bi);
      AddTo(sold, si, bi, e.executedSell);
      AddTo(claimed, si, bi, s.baselineQuotes[k]);
    }
  }

  method AddTo(m: array2<nat>, i: nat, j: nat, v: nat)
    requires i < m.Length0 && j < m.Length1
    modifies m
    ensures forall a, b :: 0 <= a < m.Length0 && 0 <= b < m.Length1 ==>
      m[a, b] == old(m[a, b]) + (if a == i && b == j then v else 0)
  {
    m[i, j] := m[i, j] + v;
  }

  lemma CellOfExecution(s: Solution, k: nat)
    requires k < |s.executions| && s.executions[k].intentIndex < |s.intents|
    requires var i := s.intents[s.executions[k].intentIndex]; i.sellToken in s.tokens && i.buyToken in s.tokens
    ensures var i := s.intents[s.executions[k].intentIndex];
      InCell(s, k, TokenIndex(s.tokens, i.sellToken).value, TokenIndex(s.tokens, i.buyToken).value)
  {
  }

  /** One execution moves its own cell and no other. */
  lemma TallyStep(s: Solution, k: nat, si: nat, bi: nat)
    requires k < |s.executions| == |s.baselineQuotes|
    requires InCell(s, k, si, bi)
    ensures forall a: nat, b: nat ::
      SoldIn(s, k + 1, a, b) == SoldIn(s, k, a, b) + (if a == si && b == bi then s.executions[k].executedSell else 0)
    ensures forall a: nat, b: nat ::
      ClaimedIn(s, k + 1, a, b) == ClaimedIn(s, k, a, b) + (if a == si && b == bi then s.baselineQuotes[k] else 0)
  {
  }

  /** checkBaselineFloor: one pass filling the two matrices, then one quote per direction that sold anything. */
  method CheckBaselineFloor(s: Solution, venue: Venue) returns (r: FloorCheck)
    requires |s.executions| == |s.baselineQuotes|
    requires forall e :: e in s.executions ==> e.intentIndex < |s.intents|
    requires forall i :: i in s.intents ==> i.sellToken in s.tokens && i.buyToken in s.tokens
    ensures r == CheckFloors(s, venue)
  {
    var n := |s.tokens|;
    var sold := new nat[n, n]((_, _) => 0);
    var claimed := new nat[n, n]((_, _) => 0);
    FillMatrices(s, sold, claimed);
    hide SoldIn, ClaimedIn;
    r := FloorCheck(true, [], []);
    for si := 0 to n
      invariant Tallied(sold, claimed, s, |s.executions|)
      invariant r == CheckCells(s, venue, si, 0)
    {
      for bi := 0 to n
        invariant Tallied(sold, claimed, s, |s.executions|)
        invariant r == CheckCells(s, venue, si, bi)
      {
        if sold[si, bi] != 0 {
          match venue(s.tokens[si], s.tokens[bi], sold[si, bi])
          case None => r := r.(priced := false, unquoted := r.unquoted + [(s.tokens[si], s.tokens[bi])]);
          case Some(floor) =>
            if claimed[si, bi] < floor {
              r := r.(belowVenue := r.belowVenue + [Finding(s.tokens[si], s.tokens[bi], claimed[si, bi], floor)]);
            }
        }
      }
    }
  }

  // ----- what the check reports

  /** Execution k sells the one token for the other. */
  predicate Trades(s: Solution, k: nat, tokenIn: Address, tokenOut: Address)
    requires k < |s.executions|
  {
    && s.executions[k].intentIndex < |s.intents|
    && var i := s.intents[s.executions[k].intentIndex]; i.sellToken == tokenIn && i.buyToken == tokenOut
  }

  /** What the first n executions sell of one token for another. */
  function SoldFor(s: Solution, n: nat, tokenIn: Address, tokenOut: Address): nat
    requires n <= |s.executions|
  {
    if n == 0 then 0
    else
      SoldFor(s, n - 1, tokenIn, tokenOut)
      + (if Trades(s, n - 1, tokenIn, tokenOut) then s.executions[n - 1].executedSell else 0)
  }

  /** The baselines claimed for that. */
  function ClaimedFor(s: Solution, n: nat, tokenIn: Address, tokenOut: Address): nat
    requires n <= |s.executions| == |s.baselineQuotes|
  {
    if n == 0 then 0
    else
      ClaimedFor(s, n - 1, tokenIn, tokenOut)
      + (if Trades(s, n - 1, tokenIn, tokenOut) then s.baselineQuotes[n - 1] else 0)
  }

  /** Some of the one listed token is sold for the other. */
  predicate Sells(s: Solution, tokenIn: Address, tokenOut: Address)
  {
    tokenIn in s.tokens && tokenOut in s.tokens && SoldFor(s, |s.executions|, tokenIn, tokenOut) > 0
  }

  /** The direction is claimed below the venue's quote on all of it, by these two figures. */
  predicate ShortOf(s: Solution, venue: Venue, f: Finding)
    requires |s.executions| == |s.baselineQuotes|
  {
    && Sells(s, f.tokenIn, f.tokenOut)
    && venue(f.tokenIn, f.tokenOut, SoldFor(s, |s.executions|, f.tokenIn, f.tokenOut)) == Some(f.floor)
    && f.claimed == ClaimedFor(s, |s.executions|, f.tokenIn, f.tokenOut) < f.floor
  }

  predicate Unquotable(s: Solution, venue: Venue, tokenIn: Address, tokenOut: Address)
  {
    Sells(s, tokenIn, tokenOut) && venue(tokenIn, tokenOut, SoldFor(s, |s.executions|, tokenIn, tokenOut)).None?
  }

  /** A cell at the first places of its two tokens holds the direction's sums, and any other cell nothing. */
  lemma {:induction false} CellTells(s: Solution, n: nat, si: nat, bi: nat)
    requires n <= |s.executions| == |s.baselineQuotes| && si < |s.tokens| && bi < |s.tokens|
    ensures if TokenIndex(s.tokens, s.tokens[si]) == Some(si) && TokenIndex(s.tokens, s.tokens[bi]) == Some(bi)
      then SoldIn(s, n, si, bi) == SoldFor(s, n, s.tokens[si], s.tokens[bi])
        && ClaimedIn(s, n, si, bi) == ClaimedFor(s, n, s.tokens[si], s.tokens[bi])
      else SoldIn(s, n, si, bi) == 0
  {
    hide TokenIndex;
    if n > 0 {
      CellTells(s, n - 1, si, bi);
      if InCell(s, n - 1, si, bi) {
        var i := s.intents[s.executions[n - 1].intentIndex];
        assert s.tokens[si] == i.sellToken && s.tokens[bi] == i.buyToken;
      }
    }
  }

  /** The cell's own part in the report. */
  predicate CellShort(s: Solution, venue: Venue, si: nat, bi: nat, f: Finding)
    requires |s.executions| == |s.baselineQuotes| && si < |s.tokens| && bi < |s.tokens|
  {
    var sold := SoldIn(s, |s.executions|, si, bi);
    && sold > 0 && f.tokenIn == s.tokens[si] && f.tokenOut == s.tokens[bi]
    && venue(f.tokenIn, f.tokenOut, sold) == Some(f.floor)
    && f.claimed == ClaimedIn(s, |s.executions|, si, bi) < f.floor
  }

  predicate CellUnquoted(s: Solution, venue: Venue, si: nat, bi: nat, d: (Address, Address))
    requires si < |s.tokens| && bi < |s.tokens|
  {
    var sold := SoldIn(s, |s.executions|, si, bi);
    sold > 0 && d == (s.tokens[si], s.tokens[bi]) && venue(d.0, d.1, sold).None?
  }

  /** Cell (a, b) of the n by n matrix comes before cell (si, bi), row by row. */
  predicate Before(n: nat, a: nat, b: nat, si: nat, bi: nat) { a < n && b < n && (a < si || (a == si && b < bi)) }

  lemma {:induction false} CellsTell(s: Solution, venue: Venue, si: nat, bi: nat, f: Finding, d: (Address, Address))
    requires |s.executions| == |s.baselineQuotes|
    requires si <= |s.tokens| && bi <= |s.tokens| && (si == |s.tokens| ==> bi == 0)
    ensures var r := CheckCells(s, venue, si, bi);
      && (f in r.belowVenue <==>
          exists a: nat, b: nat :: Before(|s.tokens|, a, b, si, bi) && CellShort(s, venue, a, b, f))
      && (d in r.unquoted <==>
          exists a: nat, b: nat :: Before(|s.tokens|, a, b, si, bi) && CellUnquoted(s, venue, a, b, d))
      && (r.priced <==> r.unquoted == [])
    decreases si, bi
  {
    hide SoldIn, ClaimedIn;
    if bi > 0 {
      CellsTell(s, venue, si, bi - 1, f, d);
      CellTellsOne(s, venue, si, bi - 1, CheckCells(s, venue, si, bi - 1), f, d);
      hide CheckCell, CellShort, CellUnquoted;
      assert forall a: nat, b: nat :: Before(|s.tokens|, a, b, si, bi) <==>
          Before(|s.tokens|, a, b, si, bi - 1) || (a == si < |s.tokens| && b == bi - 1);
    } else if si > 0 {
      hide CheckCell, CellShort, CellUnquoted;
      CellsTell(s, venue, si - 1, |s.tokens|, f, d);
    }
  }

  lemma CellTellsOne(s: Solution, venue: Venue, si: nat, bi: nat, c: FloorCheck, f: Finding, d: (Address, Address))
    requires |s.executions| == |s.baselineQuotes| && si < |s.tokens| && bi < |s.tokens|
    requires c.priced <==> c.unquoted == []
    ensures var r := CheckCell(s, venue, si, bi, c);
      && (f in r.belowVenue <==> f in c.belowVenue || CellShort(s, venue, si, bi, f))
      && (d in r.unquoted <==> d in c.unquoted || CellUnquoted(s, venue, si, bi, d))
      && (r.priced <==> r.unquoted == [])
  {
    hide SoldIn, ClaimedIn;
  }

  /** The report is exact: a direction is listed as below the venue, with its own tokens and figures, if and only if the
      baselines claimed for it fall short of the venue's quote on all it sells; it is listed as unquoted if and only if
      the venue cannot quote that; and the batch counts as priced if and only if nothing is. */
  lemma FloorsExactly(s: Solution, venue: Venue, f: Finding, tokenIn: Address, tokenOut: Address)
    requires |s.executions| == |s.baselineQuotes|
    ensures f in CheckFloors(s, venue).belowVenue <==> ShortOf(s, venue, f)
    ensures (tokenIn, tokenOut) in CheckFloors(s, venue).unquoted <==> Unquotable(s, venue, tokenIn, tokenOut)
    ensures CheckFloors(s, venue).priced <==> CheckFloors(s, venue).unquoted == []
  {
    CellsTell(s, venue, |s.tokens|, 0, f, (tokenIn, tokenOut));
    hide SoldIn, ClaimedIn, SoldFor, ClaimedFor, CheckCells, TokenIndex;
    forall a, b | 0 <= a < |s.tokens| && 0 <= b < |s.tokens|
      ensures CellShort(s, venue, a, b, f) ==> ShortOf(s, venue, f)
      ensures CellUnquoted(s, venue, a, b, (tokenIn, tokenOut)) ==> Unquotable(s, venue, tokenIn, tokenOut)
    {
      CellTells(s, |s.executions|, a, b);
    }
    if ShortOf(s, venue, f) {
      DirectionCell(s, venue, f.tokenIn, f.tokenOut);
    }
    if Unquotable(s, venue, tokenIn, tokenOut) {
      DirectionCell(s, venue, tokenIn, tokenOut);
    }
  }

  /** A listed direction's sums stand at its tokens' first places. */
  lemma DirectionCell(s: Solution, venue: Venue, tokenIn: Address, tokenOut: Address)
    requires |s.executions| == |s.baselineQuotes| && tokenIn in s.tokens && tokenOut in s.tokens
    ensures var a, b := TokenIndex(s.tokens, tokenIn).value, TokenIndex(s.tokens, tokenOut).value;
      && SoldIn(s, |s.executions|, a, b) == SoldFor(s, |s.executions|, tokenIn, tokenOut)
      && ClaimedIn(s, |s.executions|, a, b) == ClaimedFor(s, |s.executions|, tokenIn, tokenOut)
      && Before(|s.tokens|, a, b, |s.tokens|, 0)
  {
    hide TokenIndex;
    CellTells(s, |s.executions|, TokenIndex(s.tokens, tokenIn).value, TokenIndex(s.tokens, tokenOut).value);
  }

  // ----- every assembled solution passes

  /** The fill trades in one direction. */
  predicate InDirection(intents: seq<Intent>, tokenIn: Address, tokenOut: Address, f: Fill)
  {
    f.index < |intents| && intents[f.index].sellToken == tokenIn && intents[f.index].buyToken == tokenOut
  }

  function SoldBy(intents: seq<Intent>, tokenIn: Address, tokenOut: Address): Fill -> int
  {
    (f: Fill) => if InDirection(intents, tokenIn, tokenOut, f) then f.executedSell else 0
  }

  function ClaimedBy(outcomes: seq<PairOutcome>, intents: seq<Intent>, tokenIn: Address, tokenOut: Address): Fill -> int
  {
    (f: Fill) =>
      if InDirection(intents, tokenIn, tokenOut, f) then
        (match BaselineAt(outcomes, f.index) case Some(b) => b case None => 0)
      else 0
  }

  /** The two matrices' cells, told by fills instead of executions. */
  lemma {:induction false} CellSums(s: Solution, outcomes: seq<PairOutcome>, intents: seq<Intent>, quote: Address,
      oracle: map<Address, OracleRow>, n: nat, si: nat, bi: nat)
    requires Built(s, outcomes, intents, quote, oracle)
    requires n <= |s.executions| == |s.baselineQuotes| == |Used(outcomes)|
    requires si < |s.tokens| && bi < |s.tokens|
    ensures SoldIn(s, n, si, bi) == SumBy(Used(outcomes)[..n], SoldBy(intents, s.tokens[si], s.tokens[bi]))
    ensures ClaimedIn(s, n, si, bi) ==
      SumBy(Used(outcomes)[..n], ClaimedBy(outcomes, intents, s.tokens[si], s.tokens[bi]))
  {
    hide Built, Used, BaselineAt, SumBy, InCell, InDirection;
    var used := Used(outcomes);
    if n == 0 {
      assert used[..0] == [];
      NothingSums(outcomes, intents, s.tokens[si], s.tokens[bi]);
    } else {
      CellSums(s, outcomes, intents, quote, oracle, n - 1, si, bi);
      SumByStep(used, n - 1, SoldBy(intents, s.tokens[si], s.tokens[bi]));
      SumByStep(used, n - 1, ClaimedBy(outcomes, intents, s.tokens[si], s.tokens[bi]));
      CellIs(s, outcomes, intents, quote, oracle, n - 1, si, bi);
    }
  }

  /** Execution k counts in a cell exactly when its fill sells in that direction. */
  lemma CellIs(s: Solution, outcomes: seq<PairOutcome>, intents: seq<Intent>, quote: Address,
      oracle: map<Address, OracleRow>, k: nat, si: nat, bi: nat)
    requires Built(s, outcomes, intents, quote, oracle)
    requires k < |s.executions| == |s.baselineQuotes| == |Used(outcomes)|
    requires si < |s.tokens| && bi < |s.tokens|
    ensures InCell(s, k, si, bi) <==> InDirection(intents, s.tokens[si], s.tokens[bi], Used(outcomes)[k])
    ensures s.executions[k].executedSell == Used(outcomes)[k].executedSell
    ensures BaselineAt(outcomes, Used(outcomes)[k].index) == Some(s.baselineQuotes[k])
  {
    hide Built, Used, BaselineAt;
    BuiltAt(s, outcomes, intents, quote, oracle, k);
    TokensDistinct(s, outcomes, intents, quote, oracle);
    TokenIndexUnique(s.tokens, si, s.intents[k].sellToken);
    TokenIndexUnique(s.tokens, bi, s.intents[k].buyToken);
  }

  lemma NothingSums(outcomes: seq<PairOutcome>, intents: seq<Intent>, tokenIn: Address, tokenOut: Address)
    ensures SumBy([], SoldBy(intents, tokenIn, tokenOut)) == 0 ==
      SumBy([], ClaimedBy(outcomes, intents, tokenIn, tokenOut))
  {
  }

  lemma TokensDistinct(s: Solution, outcomes: seq<PairOutcome>, intents: seq<Intent>, quote: Address,
      oracle: map<Address, OracleRow>)
    requires Built(s, outcomes, intents, quote, oracle)
    ensures Distinct(s.tokens)
  {
    hide Used, BaselineAt, OrderTokens, TokenPrice;
    OrderTokensAscend(s.intents, quote);
  }

  /** A quantity that only one pair's fills carry. */
  lemma {:induction false} OnlyOnePair(outcomes: seq<PairOutcome>, j: nat, g: Fill -> int)
    requires j < |outcomes|
    requires forall k, f :: 0 <= k < |outcomes| && k != j && f in FillsOf()(outcomes[k]) ==> g(f) == 0
    ensures SumBy(AllFills(outcomes), g) == SumBy(FillsOf()(outcomes[j]), g)
  {
    var init, last := outcomes[..|outcomes| - 1], outcomes[|outcomes| - 1];
    AllFillsStep(outcomes);
    SumByAppend(AllFills(init), FillsOf()(last), g);
    if j < |init| {
      OnlyOnePair(init, j, g);
      SumByNothing(FillsOf()(last), g);
    } else {
      forall f | f in AllFills(init) ensures g(f) == 0 {
        var k := FillListed(init, f);
        assert outcomes[k] == init[k];
      }
      SumByNothing(AllFills(init), g);
    }
  }

  lemma {:induction false} FillListed(outcomes: seq<PairOutcome>, f: Fill) returns (k: nat)
    requires f in AllFills(outcomes)
    ensures k < |outcomes| && f in FillsOf()(outcomes[k])
  {
    AllFillsStep(outcomes);
    k := |outcomes| - 1;
    if f in AllFills(outcomes[..k]) {
      k := FillListed(outcomes[..k], f);
    }
  }

  lemma SumByNothing<T>(xs: seq<T>, g: T -> int)
    requires forall x :: x in xs ==> g(x) == 0
    ensures SumBy(xs, g) == 0
  {
    SumByBound(xs, g, 0);
    SumByNonNegative(xs, g);
  }

  /** One direction of an assembled solution belongs to one pair, and reaches the venue's quote there. */
  lemma DirectionMet(outcomes: seq<PairOutcome>, intents: seq<Intent>, quote: Address, oracle: map<Address, OracleRow>,
      dev: nat, venue: Venue, tokenIn: Address, tokenOut: Address)
    requires SoundAll(outcomes, intents, quote, oracle, dev, venue)
    requires SumBy(AllFills(outcomes), SoldBy(intents, tokenIn, tokenOut)) > 0
    ensures venue(tokenIn, tokenOut, SumBy(AllFills(outcomes), SoldBy(intents, tokenIn, tokenOut))).Some?
    ensures SumBy(AllFills(outcomes), ClaimedBy(outcomes, intents, tokenIn, tokenOut))
      >= venue(tokenIn, tokenOut, SumBy(AllFills(outcomes), SoldBy(intents, tokenIn, tokenOut))).value
  {
    var sold, claimed := SoldBy(intents, tokenIn, tokenOut), ClaimedBy(outcomes, intents, tokenIn, tokenOut);
    hide SumBy, AllFills, BaselineAt;
    var f := SomeTerm(AllFills(outcomes), sold);
    var j := EveryFillOwned(outcomes, intents, quote, oracle, dev, venue, f);
    var o := outcomes[j];
    OthersQuiet(outcomes, intents, quote, oracle, dev, venue, j, tokenIn, tokenOut);
    OnlyOnePair(outcomes, j, sold);
    OnlyOnePair(outcomes, j, claimed);
    OwnersFloor(o, intents, quote, RefOf(oracle, quote, o.base, dev), venue, f);
    DirectionSums(outcomes, intents, quote, oracle, dev, venue, j, tokenIn, tokenOut);
  }

  lemma OthersQuiet(outcomes: seq<PairOutcome>, intents: seq<Intent>, quote: Address, oracle: map<Address, OracleRow>,
      dev: nat, venue: Venue, j: nat, tokenIn: Address, tokenOut: Address)
    requires SoundAll(outcomes, intents, quote, oracle, dev, venue)
    requires j < |outcomes|
    requires (tokenIn == quote && tokenOut == outcomes[j].base) || (tokenIn == outcomes[j].base && tokenOut == quote)
    ensures forall k, f :: 0 <= k < |outcomes| && k != j && f in FillsOf()(outcomes[k]) ==>
      !InDirection(intents, tokenIn, tokenOut, f)
  {
    forall k, f | 0 <= k < |outcomes| && k != j && f in FillsOf()(outcomes[k])
      ensures !InDirection(intents, tokenIn, tokenOut, f) {
      assert SoundOutcome(outcomes[k], intents, quote, oracle, dev, venue);
      SoundParts(outcomes[k], intents, quote, RefOf(oracle, quote, outcomes[k].base, dev), venue);
      hide Sound, Refusal;
      assert FillSound(f, outcomes[k].base, quote, intents, HealthyPrice(oracle, quote).value, outcomes[k].basePrice);
      assert outcomes[k].base != outcomes[j].base;
    }
  }

  lemma OwnersFloor(o: PairOutcome, intents: seq<Intent>, quote: Address, ref: Reference, venue: Venue, f: Fill)
    requires o.Kept? && Sound(o, o.base, quote, intents, ref, venue)
    requires f in o.fills && f.index < |intents| && BaseOf(intents[f.index], quote) == Some(o.base)
    ensures FloorMet(o.fills, o.baselines, intents, venue, intents[f.index].sellToken, intents[f.index].buyToken)
    ensures Filter(o.fills, SellsIn(intents, intents[f.index].sellToken)) != []
  {
    hide FillSound, FloorMet;
    assert f in Filter(o.fills, SellsIn(intents, intents[f.index].sellToken));
  }

  lemma DirectionSums(outcomes: seq<PairOutcome>, intents: seq<Intent>, quote: Address,
      oracle: map<Address, OracleRow>, dev: nat, venue: Venue, j: nat, tokenIn: Address, tokenOut: Address)
    requires SoundAll(outcomes, intents, quote, oracle, dev, venue)
    requires j < |outcomes| && outcomes[j].Kept?
    requires (tokenIn == quote && tokenOut == outcomes[j].base) || (tokenIn == outcomes[j].base && tokenOut == quote)
    ensures var direction := Filter(outcomes[j].fills, SellsIn(intents, tokenIn));
      && SumBy(outcomes[j].fills, SoldBy(intents, tokenIn, tokenOut)) == Total(direction)
      && SumBy(outcomes[j].fills, ClaimedBy(outcomes, intents, tokenIn, tokenOut)) ==
        SumBy(direction, BaselineOf(outcomes[j].baselines))
  {
    var o := outcomes[j];
    assert SoundOutcome(o, intents, quote, oracle, dev, venue);
    SoundParts(o, intents, quote, RefOf(oracle, quote, o.base, dev), venue);
    var direction := Filter(o.fills, SellsIn(intents, tokenIn));
    var sold, claimed := SoldBy(intents, tokenIn, tokenOut), ClaimedBy(outcomes, intents, tokenIn, tokenOut);
    hide Sound, SoundAll, Refusal, SumBy, BaselineAt, Filter;
    SumByFilterZero(o.fills, SellsIn(intents, tokenIn), sold);
    SumByFilterZero(o.fills, SellsIn(intents, tokenIn), claimed);
    forall f | f in direction ensures sold(f) == SellOf()(f) && claimed(f) == BaselineOf(o.baselines)(f) {
      assert FillSound(f, o.base, quote, intents, HealthyPrice(oracle, quote).value, o.basePrice);
      assert Owns(o, f, intents, quote);
      BaselineIsOwn(outcomes, intents, quote, oracle, dev, venue, j, f);
    }
    SumByEq(direction, sold, SellOf());
    SumByEq(direction, claimed, BaselineOf(o.baselines));
  }

  /** A cell of an assembled solution adds no finding. */
  lemma CellClean(s: Solution, outcomes: seq<PairOutcome>, intents: seq<Intent>, quote: Address,
      oracle: map<Address, OracleRow>, dev: nat, venue: Venue, si: nat, bi: nat, c: FloorCheck)
    requires SoundAll(outcomes, intents, quote, oracle, dev, venue)
    requires Built(s, outcomes, intents, quote, oracle)
    requires |s.executions| == |s.baselineQuotes| == |Used(outcomes)|
    requires si < |s.tokens| && bi < |s.tokens|
    ensures CheckCell(s, venue, si, bi, c) == c
  {
    hide Used, SoundAll, Built, SumBy, SoldIn, ClaimedIn, AllFills, ClaimedBy, SoldBy;
    CellFills(s, outcomes, intents, quote, oracle, dev, venue, si, bi);
    if SoldIn(s, |s.executions|, si, bi) != 0 {
      DirectionMet(outcomes, intents, quote, oracle, dev, venue, s.tokens[si], s.tokens[bi]);
    }
  }

  lemma CellFills(s: Solution, outcomes: seq<PairOutcome>, intents: seq<Intent>, quote: Address,
      oracle: map<Address, OracleRow>, dev: nat, venue: Venue, si: nat, bi: nat)
    requires SoundAll(outcomes, intents, quote, oracle, dev, venue)
    requires Built(s, outcomes, intents, quote, oracle)
    requires |s.executions| == |s.baselineQuotes| == |Used(outcomes)|
    requires si < |s.tokens| && bi < |s.tokens|
    ensures SoldIn(s, |s.executions|, si, bi) == SumBy(AllFills(outcomes), SoldBy(intents, s.tokens[si], s.tokens[bi]))
    ensures ClaimedIn(s, |s.executions|, si, bi) ==
      SumBy(AllFills(outcomes), ClaimedBy(outcomes, intents, s.tokens[si], s.tokens[bi]))
  {
    hide *;
    var used, tokenIn, tokenOut := Used(outcomes), s.tokens[si], s.tokens[bi];
    assert used[..|used|] == used;
    UsedFacts(outcomes, intents, quote, oracle, dev, venue);
    CellSums(s, outcomes, intents, quote, oracle, |s.executions|, si, bi);
    SumByPermutation(used, AllFills(outcomes), SoldBy(intents, tokenIn, tokenOut));
    SumByPermutation(used, AllFills(outcomes), ClaimedBy(outcomes, intents, tokenIn, tokenOut));
  }

  lemma {:induction false} CellsClean(s: Solution, outcomes: seq<PairOutcome>, intents: seq<Intent>, quote: Address,
      oracle: map<Address, OracleRow>, dev: nat, venue: Venue, si: nat, bi: nat)
    requires SoundAll(outcomes, intents, quote, oracle, dev, venue)
    requires Built(s, outcomes, intents, quote, oracle)
    requires |s.executions| == |s.baselineQuotes| == |Used(outcomes)|
    requires si <= |s.tokens| && bi <= |s.tokens| && (si == |s.tokens| ==> bi == 0)
    ensures CheckCells(s, venue, si, bi) == FloorCheck(true, [], [])
    decreases si, bi
  {
    hide SoundAll, Built, CheckCell;
    if bi > 0 {
      CellsClean(s, outcomes, intents, quote, oracle, dev, venue, si, bi - 1);
      CellClean(s, outcomes, intents, quote, oracle, dev, venue, si, bi - 1, FloorCheck(true, [], []));
    } else if si > 0 {
      CellsClean(s, outcomes, intents, quote, oracle, dev, venue, si - 1, |s.tokens|);
    }
  }

  /** In whatever the solver assembles, every direction that sells anything can be quoted, and its baselines reach the
      venue's quote on the direction's whole volume. */
  lemma SolveReachesVenue(intents: seq<Intent>, quote: Address, oracle: map<Address, OracleRow>, dev: nat,
      venue: Venue, profile: Profile)
    requires forall t :: t in oracle ==> oracle[t].price > 0
    requires forall i :: i in intents ==> i.sellAmount > 0
    ensures var solution := SolveBatch(intents, quote, oracle, dev, venue, profile).solution;
      && solution.Some?
      && |solution.value.executions| == |solution.value.baselineQuotes|
      && CheckFloors(solution.value, venue) == FloorCheck(true, [], [])
  {
    BatchSound(intents, quote, oracle, dev, venue, profile);
    SolveSettles(intents, quote, oracle, dev, venue, profile);
    var plan := SolveBatch(intents, quote, oracle, dev, venue, profile);
    hide SolveBatch, SoundAll, Used, BaselineAt, OrderTokens, TokenPrice, CheckCells, Acceptance.Settles,
      SolverMath.ClaimedSavings, OraclePrices;
    var s := plan.solution.value;
    CellsClean(s, plan.outcomes, intents, quote, oracle, dev, venue, |s.tokens|, 0);
  }
}
