/** What solve makes of a batch: the path of every pair, and the list of everything filled (solver/src/solve.ts). */
module PlanPaths {
  import opened Common
  import opened Sorting
  import opened Solutions
  import opened Clearing
  import opened Allocation
  import opened Solve
  import opened Assembly
  import opened Paths
  import opened PairPaths

  /** Fill f is the outcome's. */
  ghost predicate FilledBy(o: PairOutcome, f: Fill) { o.Kept? && f in o.fills }

  /** Entry n of the solution is this fill, with its intent and the baseline its outcome claims. */
  ghost predicate Enters(s: Solution, intents: seq<Intent>, outcomes: seq<PairOutcome>, n: nat, f: Fill)
  {
    && n < |s.executions| && n < |s.intents| && n < |s.baselineQuotes| && f.index < |intents|
    && s.executions[n] == Execution(n, f.executedSell, f.executedBuy) && s.intents[n] == intents[f.index]
    && exists k :: 0 <= k < |outcomes| && FilledBy(outcomes[k], f) && f.index in outcomes[k].baselines
         && s.baselineQuotes[n] == outcomes[k].baselines[f.index]
  }

  /** The solution lists these fills and nothing else: those of every kept pair, by intent, each once. */
  ghost predicate Lists(s: Solution, intents: seq<Intent>, outcomes: seq<PairOutcome>, used: seq<Fill>)
  {
    && (forall f :: f in used <==> exists k :: 0 <= k < |outcomes| && FilledBy(outcomes[k], f))
    && (forall j, k :: 0 <= j < k < |used| ==> used[j].index < used[k].index)
    && |s.executions| == |s.intents| == |s.baselineQuotes| == |used|
    && (forall n :: 0 <= n < |used| ==> Enters(s, intents, outcomes, n, used[n]))
    && s.venueCalls == AllCalls(outcomes)
  }

  lemma {:induction false} FillsListed(outcomes: seq<PairOutcome>, f: Fill)
    ensures f in AllFills(outcomes) <==> exists k :: 0 <= k < |outcomes| && FilledBy(outcomes[k], f)
  {
    if outcomes != [] {
      var n := |outcomes| - 1;
      FillsListed(outcomes[..n], f);
      AllFillsStep(outcomes);
      assert forall k :: 0 <= k < n ==> outcomes[..n][k] == outcomes[k];
    }
  }

  lemma UsedAscend(outcomes: seq<PairOutcome>)
    requires DistinctFills(Used(outcomes))
    ensures forall j, k :: 0 <= j < k < |Used(outcomes)| ==> Used(outcomes)[j].index < Used(outcomes)[k].index
  {
    SortSorts(AllFills(outcomes), ByIndex());
    var used := Used(outcomes);
    hide Used;
    forall j, k | 0 <= j < k < |used| ensures used[j].index < used[k].index {
      assert ByIndex()(used[j], used[k]);
    }
  }

  lemma ListedInBuilt(s: Solution, intents: seq<Intent>, quote: Address, oracle: map<Address, OracleRow>, dev: nat,
      venue: Venue, outcomes: seq<PairOutcome>)
    requires SoundAll(outcomes, intents, quote, oracle, dev, venue) && Built(s, outcomes, intents, quote, oracle)
    ensures Lists(s, intents, outcomes, Used(outcomes))
  {
    hide Used, SoundAll, AllFills, FilledBy, Enters, BaselineAt, TokenPrice, OrderTokens;
    UsedFacts(outcomes, intents, quote, oracle, dev, venue);
    UsedAscend(outcomes);
    var used := Used(outcomes);
    forall f ensures f in used <==> exists k :: 0 <= k < |outcomes| && FilledBy(outcomes[k], f) {
      FillsListed(outcomes, f);
    }
    forall n | 0 <= n < |used| ensures Enters(s, intents, outcomes, n, used[n]) {
      assert used[n] in used;
      EntryIs(s, intents, quote, oracle, dev, venue, outcomes, n);
    }
  }

  lemma EntryIs(s: Solution, intents: seq<Intent>, quote: Address, oracle: map<Address, OracleRow>, dev: nat,
      venue: Venue, outcomes: seq<PairOutcome>, n: nat)
    requires SoundAll(outcomes, intents, quote, oracle, dev, venue) && Built(s, outcomes, intents, quote, oracle)
    requires n < |Used(outcomes)| == |s.executions|
    requires exists k :: 0 <= k < |outcomes| && FilledBy(outcomes[k], Used(outcomes)[n])
    ensures Enters(s, intents, outcomes, n, Used(outcomes)[n])
  {
    hide Used, SoundAll, FilledBy, Built;
    BuiltAt(s, outcomes, intents, quote, oracle, n);
    var k :| 0 <= k < |outcomes| && FilledBy(outcomes[k], Used(outcomes)[n]);
    EntryBaseline(intents, quote, oracle, dev, venue, outcomes, k, Used(outcomes)[n]);
  }

  lemma EntryBaseline(intents: seq<Intent>, quote: Address, oracle: map<Address, OracleRow>, dev: nat, venue: Venue,
      outcomes: seq<PairOutcome>, k: nat, f: Fill)
    requires SoundAll(outcomes, intents, quote, oracle, dev, venue) && k < |outcomes| && FilledBy(outcomes[k], f)
    ensures f.index in outcomes[k].baselines && BaselineAt(outcomes, f.index) == Some(outcomes[k].baselines[f.index])
  {
    SoundParts(outcomes[k], intents, quote, RefOf(oracle, quote, outcomes[k].base, dev), venue);
    BaselineIsOwn(outcomes, intents, quote, oracle, dev, venue, k, f);
  }

  /** Every pair of the batch takes exactly the path its intents, the oracle and the venue decide, and the solution
      lists exactly what the kept pairs fill. */
  lemma SolveExactly(intents: seq<Intent>, quote: Address, oracle: map<Address, OracleRow>, dev: nat, venue: Venue,
      profile: Profile) returns (used: seq<Fill>)
    requires forall t :: t in oracle ==> oracle[t].price > 0
    requires forall i :: i in intents ==> i.sellAmount > 0
    ensures var plan, pairs := SolveBatch(intents, quote, oracle, dev, venue, profile), PairsOf(intents, quote);
      && |plan.outcomes| == |pairs|
      && (forall k :: 0 <= k < |pairs| ==>
            Trades(pairs[k]) && TakesPath(pairs[k], oracle, dev, venue, profile, plan.outcomes[k]))
      && plan.solution.Some? && Lists(plan.solution.value, intents, plan.outcomes, used)
  {
    hide Built, SolvePair, PairsOf, Assemble, SoundAll, Lists, TakesPath, BaseOf;
    BatchSound(intents, quote, oracle, dev, venue, profile);
    SolveSettles(intents, quote, oracle, dev, venue, profile);
    var plan, pairs := SolveBatch(intents, quote, oracle, dev, venue, profile), PairsOf(intents, quote);
    ListedInBuilt(plan.solution.value, intents, quote, oracle, dev, venue, plan.outcomes);
    used := Used(plan.outcomes);
    PairsOk(intents, quote);
    forall k | 0 <= k < |pairs|
      ensures Trades(pairs[k]) && TakesPath(pairs[k], oracle, dev, venue, profile, plan.outcomes[k])
    {
      assert pairs[k] in pairs;
      EntriesSell(pairs[k], intents);
      PairExactly(pairs[k], oracle, dev, venue, profile);
    }
  }

  lemma EntriesSell(pair: Pair, intents: seq<Intent>)
    requires PairOk(pair, intents) && forall i :: i in intents ==> i.sellAmount > 0
    ensures AllSell(pair.entries) && Trades(pair)
  {
    forall e | e in pair.entries ensures e.intent.sellAmount > 0 {
      assert intents[e.index] in intents;
    }
  }
}
