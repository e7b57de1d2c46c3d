# Batch-auction settlement, modelled and proved

A batch auction collects signed intents, clears every pair at one price, and settles the batch on chain. This project
models the parts of that stack whose correctness is a matter of arithmetic, order or history, and proves what they
promise:

1. **Solver and verifier** (`Solution`, `SolverMath`, `Verifier`, `Clearing`, `TieBreak`, `Rationing`, `RationTerms`,
   `Allocation`, `AllocationTerms`, `Solve`, `SolveLoops`, `Outcomes`, `Paths`, `PathsNetted`, `PathsRouted`, `PairPaths`,
   `PlanPaths`, `Assembly`, `Acceptance`, `Bounds`, `Guarantees`, `Refusals`, `VolumeCheck`, `Baseline`). The TypeScript
   solver picks a clearing price per pair, rations the long side, lifts the baselines to the venue's floor, routes what is
   left, and assembles a Solution. An independent Rust verifier decodes the packed bytes and checks them with 256-bit
   checked arithmetic in its own order. `Bounds.BoundedSolveAccepted` says that from intents, oracle prices and venue
   answers of bounded size, every Solution assembled, in either profile, is accepted after packing, and that the verifier
   returns exactly the savings claimed; `Assembly.SolveAccepted` says it of any inputs whose Solution is in range.
   `PlanPaths.SolveExactly` says which path every pair takes, told by its intents, the oracle and the venue, and that the
   Solution lists exactly what the kept pairs fill; `AllocationTerms.AllocateExactly` and `RationTerms.RationExactly` say
   what each intent is given. `Guarantees.AcceptanceMeans` is the other direction: what any accepted input, from any
   solver, is worth; `Refusals` says what every refusal means.
2. **Auction cross** (`Cross`, `Shares`, `CrossPlan`, `CrossTerms`). A binary search for the balancing price, a
   largest-remainder split, and a mirror of the contract's checks. `CrossPlan.CrossPlanned` says what a plan on a fresh
   book is, when there is none, and that the final self-check never fires; `CrossTerms` says it to each commitment in its
   own terms, and makes the planner and the checker exact.
3. **Uniswap V3 quote** (`V3Math`, `V3Quote`, `V3Figures`, `V3Liquidity`). The swap step of section 6.2.3 and the tick
   crossing of section 6.3.1 of the Uniswap v3 Core whitepaper, with 256-bit arithmetic wrapped by hand.
   `V3Quote.QuoteMonotone` says that quoting a smaller input never fails where a larger one succeeds and never pays more;
   `V3Liquidity.LoopLiquidity` that every round starts at the liquidity of its tick and goes by the whitepaper's figures.
4. **Reorg-safe indexer** (`Projection`, `Store`, `Replay`, `Ingest`, `Canonical`, `Undecoded`, `Reorg`, `Rows`,
   `RowsInserted`, `CanonicalRows`). A state machine against a chain that may rewrite its history between two steps.
   `Reorg.CanonicalTables` says that after every successful step the tables are the fold of the projection over the
   canonical chain's logs, and `CanonicalRows.CanonicalRows` what every row then says, event by event; `Reorg.CatchesUp`
   that the checkpoint reaches the safe head; `Replay.RewindIsReplay` that rewinding equals never having read further.
5. **Coordinator** (`Lifecycle`, `LifecycleFrames`, `Mempool`, `MempoolHistory`, `Screen`, `BatchId`). Polls interleaving
   a slow tick, maps swept by time, balance screening, and the search for a batch id. `MempoolHistory.RunTold` says what
   the mempool holds after any run, by the run alone.

`Common` and `Sorting` hold the shared vocabulary: sums, filters, floors and ceilings, and a stable sort.

Amounts are mathematical integers, as the TypeScript `bigint` is. The verifier's `U256`, `I256` and `u16` are subset
types with every checked operation and every wrap written out, and so are the wraps of the V3 arithmetic. Loops and
in-place updates are methods proved against specification functions; the properties are lemmas about those functions.
The venue is an arbitrary function from (token in, token out, amount) to an optional amount. Network reads, clocks and
transactions are parameters.

## Where the code says something other than its comments

- `clear` documents a hierarchy over prices: most volume, then least imbalance, then nearest the reference
  (`solver/src/clearing.ts:138-140`). Volume is maximal over the whole band. The tie-breaks are decided only among the
  prices tried: `TieBreak.GapIsMissed` is a book where a price with the same volume and no imbalance is missed.
  `TieBreak.ImbalanceExactly` and `TieBreak.ClearIsBestExactly` say exactly when nothing is missed, by comparing the
  prices next to the limits with the prices tried.
- `verify` judges each execution alone (`verifier/core/src/verify.rs:60-112`), so an intent named twice can sell more than
  it signed: `Guarantees.RepeatsAreAccepted`, with `Guarantees.OverfillExactly` for when it cannot.
- A total at or above 2^255 wraps before the conservation check (`verifier/core/src/verify.rs:184-189`), so a negative
  balance can pass: `Guarantees.WrappedBalanceIsAccepted`, with `Guarantees.Conserved` for when it cannot.
- `nextValidBatchId` documents the smallest valid id after `from` (`packages/shared/batch.ts:99-100`). That holds exactly
  on the calendars of `BatchId.LeastExactly`; `BatchId.NotAlwaysLeast` is a calendar on which it does not.
- `solvableBatchId` says that it derives the session from the candidate rather than from now
  (`packages/shared/batch.ts:172-174`), but the duration running now picks the candidate, and an auction phase running
  now ends the search first. A batch whose session has just ended can be missed with its window open:
  `BatchId.JustEndedIsMissed`. `BatchId.SolvableExact` says exactly when an open batch is answered.
- `quoteExactIn` recomputes the tick after every step that stops short of its target (`solver/src/v3math.ts:238-240`).
  A last step that does not move at all, just below a tick crossed downward, lands back on that tick and keeps the
  liquidity below it: `V3Liquidity.LastRoundOutOfStep`, with `V3Liquidity.UnmovedExactly` for when that shows. Nothing
  reads the liquidity after it.

## Promises that hold under a condition

- Batch frames pair up, no batch opening behind an open one (`api/src/lifecycle.ts:160-186`), if and only if the calendar
  never answers a later second with an earlier batch: `Lifecycle.FramesPairExactly`. Calendars whose sessions end on
  multiples of their batch duration are such; `Lifecycle.MisalignedOpensBehind` is a run on one that is not. Told by the
  calendar alone, where sessions change only at transitions and the search always finds a batch:
  `Lifecycle.NeverGoesBackExactly`.
- `sweep` releases a nonce at `validUntil`, as its comment says (`api/src/mempool.ts:76-82`), so two pending intents can
  share one, over some run, if and only if one of them expires while its batch is still held:
  `Mempool.SharedNonceExactly`, and `Mempool.ReleasedNonceIsReused` for two intents the intake takes
  (`api/src/routes/intents.ts:234-239`).
- `planCross` plans a fresh book whose buyers can be covered inside the collar (`solver/src/cross.ts:109-121`) if and only
  if somebody asks for something at the least such price, unless that price is one and the search starts at zero:
  `CrossTerms.PlanExactly`.

## Model

| member | source | states |
|---|---|---|
| `Bounds.BoundedSolveAccepted` | solver/src/solve.ts:79-289 | Main result. For fewer than 2^16 intents of bounded size, oracle prices whose bands stay below 2^112, amounts worth fewer than 2^112 units of what they buy, and a venue whose answers stay below 2^112, in either profile: `solve` assembles a Solution, the verifier accepts it packed, and returns exactly the savings it claims |
| `Bounds.SolutionInRange` | solver/src/solve.ts:79-289 | From those bounds on the inputs alone, every count, amount and price of the Solution assembled is in the range the verifier computes in |
| `Assembly.SolveAccepted` | solver/src/solve.ts:79-289 | For any intents with something to sell, any oracle of positive prices, any venue and either profile, `solve` assembles a Solution; while its amounts and prices stay below 2^112, its tokens at most 2^16, its other counts at most 2^32 and its flags below 2^8, the packed Solution is accepted by the verifier, which returns exactly the savings it claims |
| `PlanPaths.SolveExactly` | solver/src/solve.ts:79-106 | Main result on paths. In either profile each pair of the batch takes exactly the path its own intents, the oracle and the venue decide (see PairExactly), and the Solution lists exactly the fills of the kept pairs, in intent order, each with its intent, its amounts and its pair's baseline, and their venue calls |
| `PairPaths.PairExactly` | solver/src/solve.ts:84-103 | A pair without two healthy prices is skipped. Under netting it is netted if and only if some in-band price has a buyer and a seller, the allocation at clear's price has fills, the venue quotes each fill and each direction at no more than it gets, and covers any shortage; else its larger side is routed if and only if passes that drop the first failing intent end on a side that stands. Under routing it is never netted: each side is routed if and only if it can be, both at the buyers' price if that suits both |
| `PathsNetted.NettedExactly` | solver/src/solve.ts:112-160 | A pair is kept netted if and only if netting works; then with clear's price, the fills allotted at it, one call for exactly the surplus if a token is short, each baseline from the fill's own quote to what it gets, and each direction's baselines adding up to the larger of its own quotes and the quote on all of it |
| `PathsNetted.BaselinesExactly` | solver/src/solve.ts:118-141 | The baselines of a netted pair: none below the fill's own quote or above what it gets, each direction's sum exactly the larger of the own quotes together and the venue's quote on the whole direction |
| `Paths.ClearExactly` | solver/src/clearing.ts:149-171 | `clear` reports volume if and only if some in-band price has a buyer and a seller, and then its own price has |
| `Paths.LiftedExactly` | solver/src/solve.ts:118-141 | All baselines are found if and only if the venue quotes every fill, and every direction as a whole, at no more than it gets |
| `Paths.RouteExactly` | solver/src/solve.ts:145-160 | The residual is routed if and only if the venue gives at least any shortage for what is left of the other token, by one call for exactly that, and none where nothing is short |
| `PathsRouted.KeptRoutes` | solver/src/solve.ts:178-227 | A side kept routed comes of a run of passes, each dropping the first intent whose part is nothing or below what it asks, to a side that stands: every part enough, one price in the band within the fee of every entry |
| `PathsRouted.RoutesKept` | solver/src/solve.ts:178-227 | And every such run is kept: its last side whole, each entry its pro rata part and the last one the remainder, in one call, at the worst price the parts imply |
| `PairPaths.LargerExactly` | solver/src/solve.ts:178-227 | Without netting the side that brings more, at oracle prices, is routed if and only if it can be |
| `PairPaths.RoutingExactly` | solver/src/solve.ts:240-260 | Under the routing profile each side alone is kept if and only if it can be routed and counts for something; both together at the buyers' price if every fill is within the fee at it, and otherwise the larger call |
| `AllocationTerms.AllocateExactly` | solver/src/clearing.ts:228-303 | An allocation is what passes settle on: they start from exactly the intents that accept the price and trade some base at it, each takes out the first whose fill would break its intent, the last refuses none, and the fills are those of everyone given something, rounded against the trader |
| `RationTerms.RationExactly` | solver/src/clearing.ts:316-359 | In closed form: strictly better intents first; in a tier that does not fit an all-or-nothing intent is taken if and only if it and all smaller ones fit in their pro rata part, and any number of partial intents from the first on gets its floored parts and all that rounding left, or its sizes |
| `Acceptance.Accepted` | verifier/core/src/verify.rs:32-116 | A Solution that settles, in range: the claimed savings exist, fit 256 bits, and are the outcome of `verify` on the packed bytes, whose checks run in another order and with checked arithmetic |
| `Acceptance.ExecutionAccepted` | verifier/core/src/verify.rs:60-105 | Each execution of such a Solution passes every check `verify` makes on it, and is decoded as the solver packed it |
| `Assembly.SolveSettles` | solver/src/solve.ts:79-106 | Without any size limit: what `solve` assembles meets every limit, the uniform price, the band, its baselines and conservation, names only listed tokens, and claims the savings it has |
| `Assembly.BuiltSettles` | solver/src/solve.ts:262-289 | Whatever sound outcomes the pairs have, the Solution assembled from them settles |
| `Assembly.AssembledFill` | solver/src/solve.ts:262-275 | A fill keeps its promises after assembly: its own baseline, its own token prices, and no more sold than its intent signed |
| `Assembly.LookupsFound` | solver/src/solve.ts:263-274 | Every map lookup in `assemble` that the code asserts with `!` finds an entry, and an execution names its own intent |
| `Assembly.AllFillsDistinct` | solver/src/solve.ts:79-106 | No two fills of a batch name the same intent, across all pairs |
| `Assembly.AllCovered` | solver/src/solve.ts:79-106 | Over the whole batch each token pulled plus venue credits covers what is delivered plus venue debits |
| `Outcomes.SolvePairSound` | solver/src/solve.ts:84-103 | One pair, either profile: kept fills are distinct, hold their limits and the uniform price, baselines lie at or below what is bought and reach the venue in both directions, the price is in band, and no token is short |
| `Outcomes.NettedSound` | solver/src/solve.ts:112-160 | The same for a netted pair: clearing, allocation, quotes, lifting and routing together |
| `Outcomes.RouteSideSound` | solver/src/solve.ts:178-227 | The same for one side routed whole, across the passes that drop intents |
| `Outcomes.CombinedSound` | solver/src/solve.ts:240-260 | The same for both sides routed at the buy side's price |
| `Outcomes.LiftDirectionFits` | solver/src/solve.ts:128-141 | Lifting one direction keeps each baseline at or below its executed buy, leaves the other direction alone, and brings the direction's sum to at least the venue's quote on its whole volume |
| `Outcomes.NettedCovers` | solver/src/solve.ts:145-160 | In a netted pair the venue's minimum covers the short token, for every token |
| `Outcomes.RoutedNet` | solver/src/solve.ts:191-223 | In a routed side what the venue returns is what the fills deliver, for every token |
| `SolveLoops.SolveEach` | solver/src/solve.ts:84-103 | The loop over pairs gives each pair the outcome of `SolvePair`, about which SolvePairSound speaks |
| `SolveLoops.QuoteEach` | solver/src/solve.ts:118-126 | The loop that quotes each fill, with its two early exits, computes `OwnBaselines` |
| `SolveLoops.LiftEach` | solver/src/solve.ts:128-141 | The loop over sell tokens, with its two early exits, computes `LiftAll` |
| `SolveLoops.RouteLoop` | solver/src/solve.ts:188-226 | The bounded loop that reassigns the side and drops the first broken intent computes `RouteSide`; the pass bound is carried, and is never what ends it |
| `SolveLoops.SplitLoop` | solver/src/solve.ts:193-199 | The pro rata split that gives the last fill the remainder computes `SplitOut` |
| `Guarantees.AcceptanceMeans` | verifier/core/src/verify.rs:54-116 | Whatever `verify` accepts: every price is within its band of the oracle's, by true products, every execution honours its intent, the value withheld over the batch lies between zero and the fee share of the value in, the result is the sum of per-execution floored savings, and every token's balance is non-negative unless its totals wrap |
| `Refusals.VerdictExactly` | verifier/core/src/verify.rs:32-116 | On inputs of bounded size `verify` accepts if and only if every price is inside its band, every execution is fine and no token is left short, all by true arithmetic |
| `Refusals.RefusalMeans` | verifier/core/src/verify.rs:32-116 | Whatever `verify` answers with an error, the error is true of the input: the least token outside its band, the first execution that is not fine with its own first fault, the least token short, a wrong length, or an overflow |
| `Refusals.OutsideBandRefused` | verifier/core/src/verify.rs:158-173 | A batch with a price outside its band is refused with the least such token, its price, the oracle's and the band, wherever the products up to it fit |
| `Refusals.ExecutionVerdict` | verifier/core/src/verify.rs:60-105 | The checks on one execution end well if and only if it is fine, and otherwise with a fault it has or an overflow |
| `Guarantees.FeeAddsUp` | verifier/core/src/verify.rs:146-156 | The per-execution fee band adds up to the same band over the batch |
| `Guarantees.Conserved` | verifier/core/src/verify.rs:175-196 | The conservation check passed means a non-negative balance unless, and only unless, the total delivered reaches 2^255 while the total pulled does not |
| `Guarantees.OverfillExactly` | verifier/core/src/verify.rs:60-112 | Over an accepted batch an intent sells the sum of the packed executions that name it, so for any intent it stays within its signature exactly when that sum does; at most one naming it is enough, and for an all-or-nothing intent necessary |
| `Guarantees.RepeatsAreAccepted` | verifier/core/src/verify.rs:60-112 | An accepted input in which one intent signed for 10 sells 20 |
| `Guarantees.WrappedBalanceIsAccepted` | verifier/core/src/verify.rs:175-196 | An accepted input that delivers 2^255 of a token and pulls none |
| `Verifier.Verify` | verifier/core/src/verify.rs:32-116 | The whole verifier with its two vectors updated in place and its early returns computes `Outcome`, the function Accepted and AcceptanceMeans speak about, error by error |
| `Verifier.RunLoop` | verifier/core/src/verify.rs:56-112 | The execution loop over the two arrays computes `Run`, errors included |
| `Verifier.SettleInPlace` | verifier/core/src/verify.rs:60-112 | One execution: all its checks in order, then exactly two slots grow |
| `Verifier.CheckBandLoop` | verifier/core/src/verify.rs:158-173 | The band loop returns the first error and stops |
| `Verifier.CheckConservationLoop` | verifier/core/src/verify.rs:175-196 | The conservation loop returns the first error, over wrapped operands |
| `Verifier.IntentRoundTrip` | verifier/core/src/decode.rs:37-49 | Decoding the packed intents at any index returns the fields that were packed, with the reserved bytes zero |
| `Verifier.ExecutionRoundTrip` | verifier/core/src/decode.rs:51-61 | Decoding the packed executions at any index returns the fields that were packed |
| `VolumeCheck.VolumeMirrors` | verifier/core/src/verify.rs:118-144 | `evaluate_volume` on a pair's packed bytes succeeds if and only if nothing overflows, and then equals the solver's `volumeAt` |
| `VolumeCheck.EvaluatePacked` | verifier/core/src/verify.rs:118-144 | The loop over packed records, with checked sums, computes `VolumeOf` |
| `Solutions.OrderTokensExact` | solver/src/solution.ts:73-82 | The token list holds the quote token first, and exactly the tokens the intents mention |
| `Solutions.OrderTokensAscend` | solver/src/solution.ts:73-82 | The token list has no duplicate and ascends after the quote token |
| `SolveLoops.OrderLoop` | solver/src/solution.ts:73-82 | The loop that fills the map of other tokens computes `OrderTokens` |
| `Solutions.PackIntentsAt` | solver/src/solution.ts:84-92 | Record k of the packed intents is intent k, and there is nothing else |
| `Solutions.PackExecutionsAt` | solver/src/solution.ts:94-99 | Record k of the packed executions is execution k, and there is nothing else |
| `SolverMath.RaisedMeetsFloor` | solver/src/math.ts:57-74 | `raiseToFloor` refuses if and only if the floor exceeds the room there is; otherwise it raises pointwise, within each executed buy, to a sum of exactly the larger of the old sum and the floor |
| `SolverMath.RaisedTakesMostRoomFirst` | solver/src/math.ts:57-74 | Room is taken greedily: a baseline is raised only when every one with more room, or with as much and an earlier place, is full |
| `SolverMath.RaiseLoop` | solver/src/math.ts:57-74 | The loop with its early exit computes `RaiseAll` |
| `SolverMath.RaiseToFloor` | solver/src/math.ts:57-74 | Ordering, loop and refusal together compute `Raised` |
| `SolverMath.SumSavings` | solver/src/math.ts:80-97 | The savings loop, with its three throws, computes `ClaimedSavings` |
| `SolveLoops.DeltasLoop` | solver/src/math.ts:100-107 | The venue deltas updated in place are, per token, the sum of what the calls credit less what they debit |
| `SolveLoops.Conservation` | solver/src/math.ts:110-120 | The three arrays give, per token, pulled plus venue delta less delivered |
| `Clearing.ClearMaximises` | solver/src/clearing.ts:149-171 | No positive price in the band executes more than the price `clear` picks |
| `Clearing.ClearSound` | solver/src/clearing.ts:149-171 | The price picked is positive, in band, and reports its own volume; there is none only if no positive price is in band |
| `Clearing.ClearPermutation` | solver/src/clearing.ts:149-180 | The clearing does not depend on the order of the intents |
| `TieBreak.ClearIsBestExactly` | solver/src/clearing.ts:138-180 | The full hierarchy holds over every positive in-band price if and only if each in-band price next to a limit, and the price 1, has a tried price that is it or ranks above it |
| `TieBreak.WidenedIsBest` | solver/src/clearing.ts:138-180 | With those neighbours tried as well, the price picked ranks first over the whole band, always |
| `TieBreak.ImbalanceExactly` | solver/src/clearing.ts:138-180 | For every band, the imbalance is least among the prices of greatest volume if and only if each in-band price next to a limit, and the price 1, has a tried price no worse in volume and imbalance |
| `TieBreak.OnlyGapsAreMissed` | solver/src/clearing.ts:138-180 | For a band without zero, all that is missed is a price at which demand equals supply, when no tried price has that |
| `TieBreak.GapIsMissed` | solver/src/clearing.ts:153-160 | A book where a price of the same volume and zero imbalance is passed over for one out by 1e18 |
| `TieBreak.ClearIsBestTried` | solver/src/clearing.ts:163-180 | Among the prices tried the hierarchy is strict: the price picked beats every other |
| `TieBreak.BalancedIsMost` | solver/src/clearing.ts:109-120 | A price at which demand equals supply executes at least as much as any other |
| `Clearing.BandEdgesExact` | solver/src/clearing.ts:80-94 | A non-negative price is in band if and only if it lies between the edges, and there are no edges if and only if no price is in band |
| `Clearing.FindBandEdges` | solver/src/clearing.ts:80-94 | The closed forms and the four correction loops give the same edges: no loop moves an edge of a band that exists |
| `Clearing.EvaluateVolume` | solver/src/clearing.ts:109-120 | The loop of comparisons sums demand and supply over the legs |
| `Clearing.CandidateSet` | solver/src/clearing.ts:153-160 | The set built is exactly the reference, the two edges and every limit |
| `Clearing.SelectBest` | solver/src/clearing.ts:162-171 | Visiting the set in any order gives the best candidate: the choice does not depend on iteration order |
| `Clearing.TryPrice` | solver/src/clearing.ts:165-169 | One candidate: skipped outside the band, kept when better |
| `Clearing.FindClearing` | solver/src/clearing.ts:149-171 | The whole search computes `Clear` |
| `SolveLoops.FillBooks` | solver/src/clearing.ts:44-58 | The map of books, filled one intent at a time, holds each base token's entries in arrival order |
| `SolveLoops.SplitPairs` | solver/src/clearing.ts:44-61 | Books and unsupported list together compute `PairsOf` |
| `SolveLoops.PairsCover` | solver/src/clearing.ts:44-61 | Every intent is in the pair of its base token or, if and only if it has none, in the unsupported list |
| `Rationing.RationFacts` | solver/src/clearing.ts:316-359 | For every side and capacity: no one gets more than its size and the capacity is never exceeded; capacity stays unused only if every partial intent is full; an at-the-price intent gets something only if every strictly better partial intent is full; an all-or-nothing intent gets all or nothing |
| `Rationing.RationExact` | solver/src/clearing.ts:316-359 | When every intent is partial and the side is long enough, the capacity is used exactly |
| `Rationing.RationedTierIsFair` | solver/src/clearing.ts:325-357 | In a rationed tier each partial intent gets at least its floored pro rata share, and together they get fewer than n units more |
| `Rationing.WholeSmallestFirst` | solver/src/clearing.ts:326-335 | An all-or-nothing intent is taken only if every smaller one is |
| `Rationing.RationTierLoop` | solver/src/clearing.ts:318-357 | One tier's loops over the allotment map compute `Tier` |
| `Rationing.FillLoop` | solver/src/clearing.ts:320-322 | A tier that fits is filled whole |
| `Rationing.StartLoop` | solver/src/clearing.ts:330-343 | The whole fills and the floored shares compute `Start` |
| `Rationing.TopUpLoop` | solver/src/clearing.ts:348-356 | The loop that hands out the leftover units, with its early exit, computes `TopUp` |
| `Rationing.TopUpFacts` | solver/src/clearing.ts:348-356 | The second pass takes from no one, exceeds neither a size nor the capacity, touches partial intents only, and leaves capacity over only when all of them are full |
| `Rationing.GiveMore` | solver/src/clearing.ts:350-355 | One turn of that pass: no one loses and no one else gains, what is given is what the capacity used grows by, and an intent left short of its size leaves no capacity |
| `Rationing.TwoTiersLoop` | solver/src/clearing.ts:317-358 | The lower tier is rationed to what the upper one left |
| `Rationing.RationLoop` | solver/src/clearing.ts:316-359 | The whole of `ration` computes `Ration` |
| `Allocation.AllocateLoop` | solver/src/clearing.ts:228-268 | The retry loop always ends without its throw, for every pair and price, and computes `Allocate` |
| `Allocation.FillsFine` | solver/src/clearing.ts:270-314 | Every fill that is kept would pass the verifier's checks on it, is distinct, and sells something |
| `Allocation.FillRounding` | solver/src/clearing.ts:283-303 | One fill leaves the contract a value that is never negative and below the larger of the two unit prices |
| `Allocation.ResidualValue` | solver/src/clearing.ts:370-384 | For every set of fills at one price, the value left over is non-negative and below a rounding unit per fill |
| `Allocation.AllocationResidual` | solver/src/clearing.ts:228-303 | Hence for every allocation: zero at least, and at most (fills) times (the larger price less one) |
| `Allocation.AllPartialBalances` | solver/src/clearing.ts:228-303 | If every intent is partial, the base residual is exactly zero and the quote residual non-negative |
| `Allocation.PartialSidesMeet` | solver/src/clearing.ts:270-281 | With partial intents only, what buyers are allotted equals what sellers are |
| `Allocation.RouteNeverBothShort` | solver/src/clearing.ts:405-408 | The "both tokens short" error of `route` cannot be reached from an allocation |
| `Allocation.AllPartialNeedsNoVenue` | solver/src/clearing.ts:405-407 | If every intent is partial, `route` makes no venue call |
| `Allocation.RouteCovers` | solver/src/clearing.ts:405-416 | What `route` returns covers both tokens: no call when neither is short, else one call that spends the surplus for at least the shortage |
| `Allocation.SumResidual` | solver/src/clearing.ts:370-384 | The residual loop computes `ResidualOf` |
| `Baseline.SolveReachesVenue` | solver/src/baseline.ts:39-69 | On everything `solve` assembles, the floor check prices every direction and finds none below the venue |
| `Baseline.DirectionMet` | solver/src/baseline.ts:55-67 | In each direction the batch trades, the venue quotes the gross volume and the baselines claimed sum to at least that quote |
| `Baseline.FloorsExactly` | solver/src/baseline.ts:39-69 | A direction is listed below the venue, with its own tokens and figures, if and only if the baselines claimed for it fall short of the quote on all it sells; as unquoted if and only if the venue cannot quote that |
| `Baseline.CheckBaselineFloor` | solver/src/baseline.ts:39-69 | The two matrices and nested loops compute `CheckFloors` |
| `Baseline.FillMatrices` | solver/src/baseline.ts:43-53 | Filled in place, each cell holds the direction's total sold and total claimed |
| `CrossPlan.CrossPlanned` | solver/src/cross.ts:109-154 | Main result on the cross. On a fresh book a plan's price is the least in range with demand at or below supply, buyers fill whole, each seller gives the floor or the ceiling of its exact share, and the mirror of the contract's checks passes; it is refused only because the start is above the collar, demand exceeds supply at the collar high, the price is zero, or nothing matches |
| `CrossTerms.PlanPromises` | solver/src/cross.ts:109-154 | What a plan promises each commitment, in its own terms: nobody executes at a price that does not suit it, a suited buyer that can get a unit executes whole, a suited seller whose pro rata part is a unit is in, and no lower price in the collar covers the buyers |
| `CrossTerms.PlanExactly` | solver/src/cross.ts:109-121 | A fresh book is planned if and only if, at the least price in the collar at which sellers cover buyers, somebody asks for something, unless that price is one with zero in the collar too |
| `CrossTerms.InAtExactly` | solver/src/cross.ts:49-64 | Taking part is being escrowed, not cancelled and suited: market orders always, limit orders by their limit, reference-priced buyers up to the floored bound above the reference, sellers from the floored bound below, and none of them when excluded or without a reference |
| `CrossTerms.NearReferenceTakesPart` | solver/src/cross.ts:49-64 | At any non-zero reference a reference-priced commitment takes part at every price within its deviation, on either side |
| `CrossTerms.MatchIs` | solver/src/cross.ts:66-78 | Demand and supply are what the commitments that take part ask and offer |
| `CrossTerms.CheckExactly` | solver/src/cross.ts:161-193 | `checkCross` answers nothing if and only if the cross passes, and otherwise the first thing wrong, true of the execution it names |
| `CrossPlan.PlannedPasses` | solver/src/cross.ts:151-193 | The executions planned pass every check of `checkCross` |
| `CrossPlan.ExecutionsBalance` | solver/src/cross.ts:140-149 | The executions ascend, tokens out equal tokens in equal the target, and quote in covers quote out |
| `CrossPlan.PlanAtFresh` | solver/src/cross.ts:116-154 | At a balancing price the plan exists unless nothing matches, and no internal error is reached |
| `CrossPlan.TargetIsDemand` | solver/src/cross.ts:116-121 | The target and the tokens available are the demand and supply of `match` |
| `CrossPlan.PlanLoop` | solver/src/cross.ts:109-154 | The whole planner computes `PlanCross`, refusals included |
| `CrossPlan.PlaceInPlace` | solver/src/cross.ts:125-138 | The shares updated in place are those of `Place` |
| `CrossPlan.CheckLoop` | solver/src/cross.ts:161-193 | The check loop returns the first error, computing `CheckCross` |
| `Cross.MatchMonotone` | solver/src/cross.ts:66-78 | As a positive price rises demand only falls and supply only grows, so balance once reached stays |
| `Cross.BalancingIsLeast` | solver/src/cross.ts:84-98 | The search answers the least balancing price in range, and none if and only if the range is empty or its end does not balance |
| `Cross.BalancingLoop` | solver/src/cross.ts:84-98 | The binary search loop computes `BalancingPrice` |
| `Cross.MatchLoop` | solver/src/cross.ts:67-77 | The loop over the book, with its zero price exit, computes `Match` |
| `Shares.PlaceExact` | solver/src/cross.ts:123-138 | Largest remainder places the target exactly, within each size, each share the floor or the ceiling of the exact one |
| `Shares.LargestFirst` | solver/src/cross.ts:130-137 | A share above its floor has a larger remainder than any share at its floor, or an equal one and no later index |
| `Shares.PlaceLoop` | solver/src/cross.ts:130-137 | The loop that hands out single units in remainder order computes `PlaceAll` on the array |
| `V3Quote.QuoteMonotone` | solver/src/v3math.ts:205-245 | Main result on quotes. For a fixed pool, if an input succeeds then every smaller one does, with no more output, crossings or steps |
| `V3Quote.RoundBehind` | solver/src/v3math.ts:218-241 | One round keeps a smaller swap behind a larger one, or finishes the smaller |
| `V3Quote.QuoteLoop` | solver/src/v3math.ts:205-245 | The loop over price, liquidity, remaining and output computes `QuoteExactIn`, errors included |
| `V3Quote.Round` | solver/src/v3math.ts:218-241 | One round: find the next tick, step, pay, cross or land |
| `V3Quote.TickIsGreatest` | solver/src/v3math.ts:82-92 | The tick search answers the greatest tick whose price is at most the one asked |
| `V3Quote.TickLoop` | solver/src/v3math.ts:82-92 | The binary search loop computes `TickAtSqrtPrice` |
| `V3Quote.NextCompressedExact` | solver/src/v3math.ts:179-200 | Within its bitmap word, the next tick is the nearest initialized one on its side, or the word's end |
| `V3Quote.NextTickSide` | solver/src/v3math.ts:179-200 | The next tick lies at or below the current one going down, strictly above going up |
| `V3Quote.CompressFloors` | solver/src/v3math.ts:180-181 | Truncating division with its correction floors, for negative ticks too |
| `V3Quote.StepWithin` | solver/src/v3math.ts:221-222 | A step never takes more than remains, and takes all of it unless it reaches the target |
| `V3Math.StepSound` | solver/src/v3math.ts:134-156 | A step reaches its target if and only if the input less fee covers the rounded-up cost, never passes it, takes at most what remains, and all of it when the target is not reached |
| `V3Math.StepMonotone` | solver/src/v3math.ts:134-156 | A smaller input that steps where a larger one does moves no further and pays no more |
| `V3Math.PartialMove` | solver/src/v3math.ts:144-154 | A step that cannot afford the target stops strictly short of it, and its payout fits 256 bits |
| `V3Math.FeeFits` | solver/src/v3math.ts:142-149 | The fee on a full step, rounded up, fits in what was withheld |
| `V3Math.NextFromAmount0Is` | solver/src/v3math.ts:108-119 | The wrapped products choose exactly: the precise formula when liquidity plus product fits 256 bits, the fallback otherwise |
| `V3Math.NextFromAmount0Falls` | solver/src/v3math.ts:108-119 | The next price falls as the input grows, across the switch between the two formulas |
| `V3Math.SwitchFalls` | solver/src/v3math.ts:108-119 | The fallback for a larger input never lands above the precise price for a smaller one |
| `V3Math.Fallback0Above` | solver/src/v3math.ts:118 | For one input the fallback is never below the precise formula |
| `V3Math.NextFromAmount0Short` | solver/src/v3math.ts:108-119 | An input below the cost of a target stops above the target |
| `V3Math.PayoutDown` | solver/src/v3math.ts:102-106 | Going down, a longer move pays at least as much, without overflow |
| `V3Math.PayoutUp` | solver/src/v3math.ts:94-100 | Going up, a longer move pays at least as much, without overflow |
| `V3Liquidity.LoopLiquidity` | solver/src/v3math.ts:205-245 | For a pool whose liquidity is the sum of the net liquidity at or below its tick, every such sum in 128 bits: however many rounds, in either direction, each starts at the sum for its own tick and goes by the figures of its step |
| `V3Liquidity.RoundLiquidity` | solver/src/v3math.ts:218-241 | After a successful round the liquidity is the sum at the loop's tick, except after a last round that does not move |
| `V3Liquidity.UnmovedExactly` | solver/src/v3math.ts:238-240 | After a round that stops short without moving, the liquidity is that of the tick it ends on if and only if that tick carries no net liquidity |
| `V3Liquidity.LastRoundOutOfStep` | solver/src/v3math.ts:238-240 | A pool and a last round of one unit, all fee, after which the tick is back on the one crossed and the liquidity is not its own |
| `V3Liquidity.CrossedLiquidity` | solver/src/v3math.ts:229-237 | Crossing leaves the liquidity of the tick it goes on from, and fails if and only if the tick is initialized and the crossings are used up or nothing would be left |
| `V3Liquidity.ThereAndBack` | solver/src/v3math.ts:229-237 | Crossing a tick one way and then the other gives the liquidity back |
| `V3Liquidity.QuoteAddsUp` | solver/src/v3math.ts:205-245 | A quote is a run of rounds whose steps, with their fees, add up to exactly the input and whose payouts to the quote |
| `V3Figures.StepFigures` | solver/src/v3math.ts:134-156 | A step that succeeds pays by the whitepaper's formulas, rounded down, costs by them, rounded up, and charges the rounded-up fee on that or keeps all that is left |
| `Reorg.CanonicalTables` | indexer/src/ingest.ts:183-277 | Main result on the indexer. Over every run of steps, the chain free to change between them, a step that succeeds leaves exactly the logs of the chain it read up to the checkpoint, those that decode and those that do not, and tables equal to the fold of the projection over them with the winning solutions inserted |
| `Reorg.StepReaches` | indexer/src/ingest.ts:204-277 | A successful step ends at the safe head, or 500 blocks on when that is further, from the checkpoint it stood on or rolled back to, and never below it |
| `Reorg.CatchesUp` | indexer/src/ingest.ts:219-277 | While the chain stands still and reads succeed, n steps move the checkpoint 500 n blocks on, up to the safe head and never past it |
| `Undecoded.UndecodedRewind` | indexer/src/store.ts:153 | The undecoded logs at or below a height are the range up to it |
| `Undecoded.UndecodedAppend` | indexer/src/store.ts:131-134 | Undecoded logs not seen before are appended as they come |
| `Reorg.RunTracks` | indexer/src/ingest.ts:204-277 | After any run, failed steps included, the store mirrors some history one of the chains had |
| `Reorg.StepTracks` | indexer/src/ingest.ts:204-277 | Each step, successful or not, leaves a store that mirrors one history: the old one cut short, or the chain it read |
| `Reorg.RewindIsNewest` | indexer/src/ingest.ts:183-192 | The block rolled back to is the newest stored one the chain agrees with, among all stored at or below the checkpoint |
| `Reorg.RewindTracks` | indexer/src/store.ts:151-163 | Rewinding to a stored block leaves a mirror of the history up to it |
| `Reorg.ResetTracks` | indexer/src/ingest.ts:193-202 | A full reset leaves an empty mirror before the first block |
| `Reorg.CommitTracks` | indexer/src/ingest.ts:275-277 | Committing a range extends the mirror by exactly that range |
| `Reorg.StoredBlocksFacts` | indexer/src/store.ts:142-149 | The blocks offered are stored, at or below the height, newest first, and none newer is left out |
| `Ingest.Ingest.DoStep` | indexer/src/ingest.ts:204-277 | The step as written, on the object and its store, computes `Step` over values |
| `Ingest.Ingest.RewindStored` | indexer/src/ingest.ts:183-202 | The rewind as written, with the reset window, computes `RewindFrom` |
| `Ingest.Ingest.constructor` | indexer/src/ingest.ts:151-158 | A new indexer has never reset |
| `Canonical.LogsInOrder` | indexer/src/ingest.ts:246-272 | The logs of a range are in chain order and none repeats |
| `Canonical.SkipDoesNotShow` | indexer/src/ingest.ts:284-310 | Reading each transaction's calldata once inserts the same rows as reading it for every closing log |
| `Canonical.LogsRewind` | indexer/src/store.ts:152-158 | The stored logs at or below a height are the range up to it |
| `Replay.RewindIsReplay` | indexer/src/store.ts:106-163 | Rewinding after any ordered commits gives the tables and logs of committing only what is at or below the height, in any chunking, though later events upsert and merge earlier rows |
| `Replay.CommitTwice` | indexer/src/store.ts:123-140 | Committing the same step twice changes nothing |
| `Replay.CommitDerived` | indexer/src/store.ts:123-140 | A commit keeps the tables equal to the fold of the stored logs, with the extra rows beside them |
| `Replay.RewindDerived` | indexer/src/store.ts:151-163 | A rewind keeps it too, with the newer extra rows gone |
| `Replay.SolutionsRewind` | indexer/src/store.ts:152-153 | Filtering the inserted solution rows by height is inserting only the older ones |
| `Store.MemoryStore.Apply` | indexer/src/store.ts:106-116 | Insert, upsert and merge on the rows in place compute the fold step `Projection.Apply` |
| `Store.MemoryStore.Find` | indexer/src/store.ts:113 | The search answers the first row whose key matches |
| `Store.MemoryStore.ApplyOps` | indexer/src/store.ts:134 | A list of operations applied one by one computes `ApplyAll` |
| `Store.MemoryStore.CommitDecoded` | indexer/src/store.ts:125-130 | Logs already stored are skipped; a new one is stored and projected |
| `Store.MemoryStore.CommitStep` | indexer/src/store.ts:123-140 | The whole commit computes `Commit` on the contents |
| `Store.MemoryStore.RewindTo` | indexer/src/store.ts:151-163 | The whole rewind computes `Rewind` on the contents |
| `Store.MemoryStore.constructor` | indexer/src/store.ts:91-94 | A new store is empty |
| `Projection.ProjectFits` | indexer/src/project.ts:88-158 | A log projects to at most one operation, of its own deployment, carrying every key of its table and never setting one by a merge |
| `Projection.ProjectAllKeeps` | indexer/src/project.ts:88-158 | Folding any logs of a deployment keeps every table keyed, with one row per key, and never touches the solutions table |
| `CanonicalRows.CanonicalRows` | indexer/src/ingest.ts:204-310 | Main result on rows. Over every run of steps, the chain free to change between them and reads to fail, after a step that succeeds the row of every batch, auction and solution, every inserted row and every winning solution says what the canonical logs up to the checkpoint say of it |
| `Rows.BatchRows` | indexer/src/project.ts:93-102 | Over all logs of a deployment a batch settled has the figures of its last settlement, and the reason of a passthrough before it; a passthrough after changes nothing; one only passed through is expired or passed by its reason |
| `Rows.AuctionRows` | indexer/src/project.ts:119-128 | An auction's row keeps its opening, has the status of the last event that sets one, the extension and collar of the last extension, and the figures of the last freeze, cross and abort |
| `Rows.OwnTable` | indexer/src/project.ts:88-158 | Every event writes its own table and no other |
| `RowsInserted.InsertedRows` | indexer/src/project.ts:103-151 | A row of a table only inserted into, such as a fill or a venue route, shows the first log with its key: each side's own token and amount |
| `RowsInserted.SolutionRowsTold` | indexer/src/project.ts:107-113 | A submitted solution is accepted unless a later event of its transaction and solver rejects it, with that reason |
| `RowsInserted.DeviationFloors` | indexer/src/project.ts:78-86 | The deviation stored is the distance from the reference in basis points rounded down, and zero without one |
| `CanonicalRows.WinnerRows` | indexer/src/ingest.ts:284-310 | A batch's winning solution is that in the calldata of the first transaction that finalized it, and there is none otherwise |
| `Lifecycle.FramesPair` | api/src/lifecycle.ts:76-262 | Main result on the lifecycle. On a calendar whose answers never go back, in every interleaving of polls and ticks, failed ticks included, with head times that never fall: frames are opens and closes in turn, ids rise, times never fall, no batch opens while an older one is unclosed, each is closed once before it is forgotten, and at most eight are tracked |
| `Lifecycle.FramesPairExactly` | api/src/lifecycle.ts:76-262 | Every run on a calendar pairs its frames if and only if that calendar never answers a later second with an earlier batch |
| `Lifecycle.SteadyNeverGoesBack` | packages/shared/batch.ts:110-155 | Sessions that change only at transitions, with no valid id passed over by rounding, never go back |
| `Lifecycle.NeverGoesBackExactly` | packages/shared/batch.ts:110-155 | Where sessions change only at transitions and the search finds a batch from every second, it never goes back if and only if rounding up to a session's duration never passes a valid id of a later session |
| `Lifecycle.MisalignedOpensBehind` | api/src/lifecycle.ts:160-172 | On a misaligned calendar batch 21 opens at second 10, and batch 15 behind it at second 14 |
| `Lifecycle.OpenedOnce` | api/src/lifecycle.ts:76-262 | Between two opens the first one's batch is closed, and no batch is opened or closed twice |
| `Lifecycle.ClosedPromptly` | api/src/lifecycle.ts:76-89 | After a close pass no tracked batch whose collection is over is left open |
| `Lifecycle.CloseDueIs` | api/src/lifecycle.ts:76-89 | A pass emits one close if and only if the current batch is open and over, and forgets only closed batches past their deadline |
| `Lifecycle.OpenKeeps` | api/src/lifecycle.ts:160-186 | Opening keeps the pairing for any answer that does not go back |
| `Lifecycle.EvictDrops` | api/src/lifecycle.ts:183-186 | Eviction drops the oldest closed batches down to eight, and never an open one |
| `LifecycleFrames.PollCloses` | api/src/lifecycle.ts:241-248 | After any run a poll publishes the close the open batch is due at its head's time, and nothing else, whatever the running tick waits for |
| `LifecycleFrames.AnswerOpens` | api/src/lifecycle.ts:160-178 | After any run an answer publishes the open of the batch it names, once none is open and only if it is new, stamped no earlier than the frame before; and nothing else |
| `LifecycleFrames.BeginCloses` | api/src/lifecycle.ts:102-121 | A tick that gets its block publishes the close due at its time, and nothing else |
| `LifecycleFrames.EndCloses` | api/src/lifecycle.ts:249-262 | The end of a tick starts the one waiting, which publishes the close due at its head's time; a failure publishes nothing |
| `LifecycleFrames.CaughtUp` | api/src/lifecycle.ts:241-262 | The last head polled is the one waiting or the one the last tick began at, so a coordinator at rest has caught up with it |
| `Lifecycle.Coordinator.CloseBatches` | api/src/lifecycle.ts:76-89 | The pass over the tracked map in place computes `CloseDue` |
| `Lifecycle.Coordinator.BeginTick` | api/src/lifecycle.ts:102-119 | The start of a tick, with the reset when time goes back, computes `TickStart` |
| `Lifecycle.Coordinator.OpenBatch` | api/src/lifecycle.ts:160-186 | Opening and eviction in place compute `AfterClose` |
| `Lifecycle.Coordinator.LaunchTick` | api/src/lifecycle.ts:249-257 | Taking a head off the queue and starting its tick computes `Launch` |
| `Lifecycle.Coordinator.SeeHead` | api/src/lifecycle.ts:241-249 | A poll, queued behind a running tick or starting one, computes one step |
| `Lifecycle.Coordinator.Advance` | api/src/lifecycle.ts:249-262 | A tick's progress, failure or end computes one step |
| `Lifecycle.Coordinator.constructor` | api/src/lifecycle.ts:50-67 | The coordinator starts with nothing tracked |
| `MempoolHistory.RunTold` | api/src/mempool.ts:64-237 | Main result on the mempool. After any run, in any order of times: a status is stored for exactly the intents taken in and not forgotten, pending, withdrawn or expired by what came first; and an owner and nonce are held by exactly those neither lapsed nor withdrawn |
| `MempoolHistory.AdmissionExactly` | api/src/mempool.ts:195-215 | After any run an intent is taken in if and only if no intent of its hash is remembered and none holds its owner and nonce; a refusal for the nonce names the holder |
| `MempoolHistory.RunLists` | api/src/mempool.ts:64-237 | After any run each batch lists exactly its intents taken in and still pending, in order of admission |
| `MempoolHistory.RunPulls` | api/src/mempool.ts:64-237 | After any run each batch's withdrawals are the hashes withdrawn while pending since a sweep last found it over, in order |
| `MempoolHistory.OnlyOne` | api/src/mempool.ts:195-215 | Of one hash at most one intent is remembered, and of one owner and nonce at most one holds them |
| `Mempool.RunKeeps` | api/src/mempool.ts:64-237 | Over every run of admit, withdraw and sweep, sweeps in time order: lists and statuses agree, no batch lists an intent twice, and every pending intent still valid holds its own owner and nonce |
| `Mempool.PendingExactly` | api/src/mempool.ts:64-237 | Over every run an intent is in its batch list if and only if it is stored as pending there |
| `Mempool.LiveNoncesDiffer` | api/src/mempool.ts:195-237 | At any point of a run, no two pending intents that are still valid share an owner and nonce |
| `Mempool.SharedNonceExactly` | api/src/mempool.ts:64-237 | Two intents of one owner and nonce can be pending together, over some run with rising sweeps, if and only if one of them is signed to expire while its batch is still held |
| `Mempool.ReleasedNonceIsReused` | api/src/mempool.ts:76-82 | A run after which two pending intents share a nonce, both outliving the solving window as the intake asks |
| `Mempool.AdmitKeeps` | api/src/mempool.ts:195-215 | Admission keeps the invariant, refusals included |
| `Mempool.WithdrawKeeps` | api/src/mempool.ts:222-237 | Withdrawal keeps it, and releases only its own nonce |
| `Mempool.SweepKeeps` | api/src/mempool.ts:64-89 | A sweep not before the last one keeps it |
| `Mempool.Memory.AdmitIntent` | api/src/mempool.ts:195-215 | The two refusals and the three maps written compute `Admit` |
| `Mempool.Memory.WithdrawIntent` | api/src/mempool.ts:222-237 | The status, the list, the withdrawals and the nonce compute `Withdraw` |
| `Mempool.Memory.ExpireBatch` | api/src/mempool.ts:67-73 | One batch over: its lists go, its pending intents expire, nothing else changes |
| `Mempool.Memory.ExpireBatches` | api/src/mempool.ts:65-74 | In any order of the batches, exactly those over are expired |
| `Mempool.Memory.SweepAt` | api/src/mempool.ts:64-89 | The three passes compute `Sweep` |
| `Mempool.Memory.constructor` | api/src/mempool.ts:38-47 | The maps start empty |
| `Mempool.Committed` | api/src/mempool.ts:244-254 | Exactly the pending intents of this owner and token in batches still held |
| `BatchId.NextIsValid` | packages/shared/batch.ts:110-155 | The id answered is after `from` and one the contract accepts; where sessions end on multiples of their own durations, or rounding passes no valid id, the least such id |
| `BatchId.LeastExactly` | packages/shared/batch.ts:99-155 | On a calendar whose sessions change only at transitions, every answer from every start leaves out no valid id if and only if rounding up to a session's duration never passes a valid id of a later session |
| `BatchId.NotAlwaysLeast` | packages/shared/batch.ts:129-137 | A calendar on which 15 is valid and the search from 10 answers 21 |
| `BatchId.SearchFindsValid` | packages/shared/batch.ts:118-152 | From any cursor with any steps left, an id found is valid, not before the cursor, and carries its own window |
| `BatchId.SearchIsLeast` | packages/shared/batch.ts:118-154 | On such a calendar no valid id is left out, in any of the answers found, exhausted or none |
| `BatchId.NextMonotone` | packages/shared/batch.ts:110-155 | Asked later, it never answers an earlier batch |
| `BatchId.NextValidLoop` | packages/shared/batch.ts:110-155 | The loop over the moving cursor computes `NextValidBatchId` |
| `BatchId.SolvableExact` | packages/shared/batch.ts:165-213 | A batch answered is valid with its window open; and a valid batch whose window is open, of any session, is the one answered if and only if a session with ordinary batches runs now and the batch is the last multiple of that session's duration before now |
| `BatchId.SolvableInSession` | packages/shared/batch.ts:165-213 | A valid batch of the session running now, its window open and no longer than the session's batches, is the one answered |
| `BatchId.JustEndedIsMissed` | packages/shared/batch.ts:170-179 | A calendar on which a batch valid and open for solutions is answered as an auction phase, its session having ended |
| `BatchId.CacheIsTransparent` | api/src/mempool.ts:144-159 | For every sequence of calls the caching reader answers as the uncached one, with at most 64 spans |
| `BatchId.AskIsTrue` | api/src/mempool.ts:149-157 | One call through a cache that holds true spans answers truly and leaves true spans |
| `BatchId.RememberTransitions.NextTransition` | api/src/mempool.ts:149-157 | Search, read, evict and push in place compute `Ask` |
| `BatchId.RememberTransitions.constructor` | api/src/mempool.ts:144-145 | The cache starts empty |
| `Screen.KeptFits` | api/src/revalidate.ts:38-77 | Per owner and token, what is kept sells at most the smaller of balance and allowance, and no kept nonce is used |
| `Screen.KeptExactly` | api/src/revalidate.ts:38-77 | The next intent is kept if and only if its nonce is unused and it fits beside those kept before it; otherwise it alone is withdrawn |
| `Screen.PrefixStable` | api/src/revalidate.ts:38-77 | Decisions on a prefix are unchanged by later intents |
| `Screen.Idempotent` | api/src/revalidate.ts:38-77 | Screening the kept list again keeps all of it |
| `Screen.ScreenLoop` | api/src/revalidate.ts:38-77 | The loop with its map of draws computes `ScreenAll` |

## Left out

- Bounds.BoundedSolveAccepted: the bounds are sufficient, not necessary: larger inputs are covered by Assembly.SolveAccepted, which reads the sizes off the assembled Solution.
- Assembly.SolveSettles: intents that sell nothing are excluded (`sellAmount > 0`), because a routed side that sells nothing in all divides by zero (`solver/src/solve.ts:196`); so are oracle prices of zero.
- PlanPaths.SolveExactly: an intent that sells nothing is excluded here too; which reason a skipped pair gives is `SolvePair`'s.
- Refusals.VerdictExactly: the bounds are those of the solver's own range; beyond them RefusalMeans also allows an overflow.
- V3Liquidity.LoopLiquidity: the bitmap and the net liquidity agree, the totals fit 128 bits, and the pool starts in step; a quote on reads that do not is covered by QuoteMonotone only.
- LifecycleFrames.CaughtUp: heads come with their times, as on a real chain; on a fork a tick can fail before it has read its own.
- Outcomes.SolvePairSound: the text of the reasons for skipping a pair, and their joining, are not modelled; which reason is.
- Baseline.CheckBaselineFloor: the case of a zero adapter address, which prices nothing.
- V3Quote.QuoteMonotone: `getSqrtPriceAtTick` is any function that rises with the tick between the two extreme prices; its constants are not part of the model. Bitmap words are sets of flags. Pools with a fee above 100 percent or a tick spacing of zero are excluded.
- Reorg.CanonicalTables: the chain is fixed within one step, so the "moved" error cannot fire. A block's hash stands for its whole history, which the parent link gives and the code does not check. One deployment per store.
- Projection.ProjectFits: conversions for display, such as hexadecimal text and decimal strings, keep the argument as it is.
- Lifecycle.FramesPair: head times never fall. A head time that falls drops all state, which TickStart models and the theorem does not cover. The calendar does not change during a run, and an auction phase answers with no batch. Session, protective and oracle frames and the announcer are not modelled.
- BatchId.SolvableExact: asked at second zero the source looks for a boundary before it; the model starts at one.
- Mempool.Memory.SweepAt: frozen feeds, held-nonce queries and counts are not modelled.
- Owners, receivers and signatures of intents, and the batch id and solver address of a Solution: clearing does not read them.
- Addresses are their numeric values; letter case and checksums do not exist in the model.
- `feeCap`, `exposureNotional` and `exposureViolations` in `solver/src/math.ts`: single expressions and sums.
- `PgStore` and its SQL; `MemoryStore` has the same key semantics.
- RPC reads, retries, range refusals, wall-clock windows beyond the full-reset one, and transactions.
- Keccak, ECDSA, Permit2 hashing and ABI encoding.
- The Solidity contracts and the verifier's Stylus wrapper are not part of this model.
- User interface, HTTP and WebSocket routes, analytics and scripts.
