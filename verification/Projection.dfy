/** From one decoded log to the rows it puts in the domain tables (indexer/src/project.ts). */
module Projection {
  import opened Common

  datatype Value = Null | Text(text: string) | Number(number: int) | Flag(flag: bool)

  datatype Table =
    | Batches | Auctions | BatchSolutions | Fills | Prices | Indicative | ClosingPrints | ClosingPrintsWithheld
    | Solvers | Sessions | Solutions | VenueRoutes | CollectionFailures

  datatype Column =
    | Deployment | ChainId | BlockNumber | BlockTimestamp | TxHash | LogIndex
    | BatchId | Outcome | Reason | Session | IntentCount | NettedUsd | RoutedUsd | SavingsUsd | SolverFeeUsd
    | ProtocolFeeUsd | Solver | IntentHash | Owner | SellToken | BuyToken | ExecutedSell | ExecutedBuy | BaselineBuy
    | Token | Price | RefPrice | DeviationBps | SolutionHash | SolutionJson | ClaimedSavings | Accepted
    | RejectionReason | Adapter | TokenIn | TokenOut | AmountIn | AmountOut | IntentIndex
    | AuctionId | Kind | CrossAt | Status | Extensions | CollarBps | CommittedIntents | EscrowedValue | Volume
    | Participants | AbortReason | LastBlockNumber | LastTxHash | LastLogIndex | Ts | Imbalance | MatchedVolume
    | Day | Sufficient
    | Event | BondedTotal | BatchesWon | SlashAmount | SlashReason | FromSession | ToSession | HealthyUpdates

  type Row = map<Column, Value>

  datatype EventName =
    | BatchSettled | BatchPassthrough | IntentSettled | ClearingPrice | SolutionSubmitted | SolutionRejected
    | VenueRouted | IntentCollectionFailed
    | AuctionOpened | AuctionExtended | AuctionFrozen | CrossExecuted | AuctionAborted | IndicativePublished
    | ClosingPrintPublished | ClosingPrintWithheld
    | SolverBonded | SolverScoreUpdated | SolverSlashed | SolverUnbondRequested
    | SessionChanged | TokenProtective | TokenProtectiveCleared
    | OtherEvent

  /** A log after decoding. Its arguments go by the event's own names. */
  datatype DecodedLog = DecodedLog(
    chainId: nat, deployment: nat, blockNumber: nat, blockHash: nat, blockTimestamp: nat, txHash: nat, logIndex: nat,
    event: EventName, args: map<string, Value>)
  {
    function Arg(name: string): Value { if name in args then args[name] else Null }

    function Amount(name: string): nat
    {
      match Arg(name) case Number(n) => if n < 0 then 0 else n case _ => 0
    }
  }

  datatype Op =
    | Insert(table: Table, row: Row)
    | Upsert(table: Table, row: Row)
    | Merge(table: Table, key: Row, set_: Row)

  /** The conflict key of each table. */
  function Keys(t: Table): set<Column>
  {
    match t
    case Batches => {Deployment, BatchId}
    case Auctions => {Deployment, AuctionId}
    case BatchSolutions => {Deployment, BatchId}
    case _ => {ChainId, TxHash, LogIndex}
  }

  function Provenance(l: DecodedLog): Row
  {
    map[ChainId := Number(l.chainId), BlockNumber := Number(l.blockNumber), BlockTimestamp := Number(l.blockTimestamp),
        TxHash := Number(l.txHash), LogIndex := Number(l.logIndex)]
  }

  /** A row of this log: its deployment, the event's own columns, its provenance. */
  function Record(l: DecodedLog, fields: Row): (r: Row)
    requires Deployment !in fields
    ensures {Deployment, ChainId, TxHash, LogIndex} <= r.Keys && r[Deployment] == Number(l.deployment)
    ensures fields.Keys <= r.Keys
  {
    map[Deployment := Number(l.deployment)] + fields + Provenance(l)
  }

  function DeviationOf(price: nat, refPrice: nat): nat
  {
    if refPrice == 0 then 0 else (if price > refPrice then price - refPrice else refPrice - price) * 10_000 / refPrice
  }

  function AuctionMerge(l: DecodedLog, fields: Row): (op: Op)
    ensures op.Merge? && op.table == Auctions
      && op.set_.Keys == fields.Keys + {LastBlockNumber, LastTxHash, LastLogIndex}
  {
    Merge(Auctions, map[Deployment := Number(l.deployment), AuctionId := l.Arg("auctionId")],
      fields + map[LastBlockNumber := Number(l.blockNumber), LastTxHash := Number(l.txHash),
        LastLogIndex := Number(l.logIndex)])
  }

  function SolverFields(l: DecodedLog, event: string, fields: Row): (r: Row)
    ensures r.Keys == {Solver, Event} + fields.Keys
    ensures forall c :: c in fields ==> r[c] == fields[c]
    ensures Solver !in fields && Event !in fields ==> r[Solver] == l.Arg("solver") && r[Event] == Text(event)
  {
    map[Solver := l.Arg("solver"), Event := Text(event)] + fields
  }

  function SolverRow(l: DecodedLog, event: string, fields: Row): (op: Op)
    requires Deployment !in fields
    ensures op.Insert? && op.table == Solvers && Keys(Solvers) + {Deployment} <= op.row.Keys
      && op.row[Deployment] == Number(l.deployment)
  {
    Insert(Solvers, Record(l, SolverFields(l, event, fields)))
  }

  const WINNER_NEVER_FINALIZED := "winner never finalized"

  // The columns each event fills in.

  function SettledFields(l: DecodedLog): (r: Row)
    ensures r.Keys == {BatchId, Outcome, Session, IntentCount, NettedUsd, RoutedUsd, SavingsUsd, SolverFeeUsd,
      ProtocolFeeUsd, Solver}
  {
    map[BatchId := l.Arg("batchId"), Outcome := Text("settled"), Session := l.Arg("session"),
        IntentCount := l.Arg("intentCount"), NettedUsd := l.Arg("nettedVolumeUsd"),
        RoutedUsd := l.Arg("routedVolumeUsd"), SavingsUsd := l.Arg("totalSavingsUsd"),
        SolverFeeUsd := l.Arg("solverFeeUsd"), ProtocolFeeUsd := l.Arg("protocolFeeUsd"), Solver := l.Arg("solver")]
  }

  function PassthroughFields(l: DecodedLog): (r: Row)
    ensures r.Keys == {BatchId, Outcome, Reason, IntentCount}
  {
    map[BatchId := l.Arg("batchId"),
        Outcome := Text(if l.Arg("reason") == Text(WINNER_NEVER_FINALIZED) then "expired" else "passthrough"),
        Reason := l.Arg("reason"), IntentCount := l.Arg("intentCount")]
  }

  function FillFields(l: DecodedLog): (r: Row)
    ensures r.Keys == {BatchId, IntentHash, Owner, SellToken, BuyToken, ExecutedSell, ExecutedBuy, BaselineBuy,
      SavingsUsd}
  {
    map[BatchId := l.Arg("batchId"), IntentHash := l.Arg("intentHash"), Owner := l.Arg("owner"),
        SellToken := l.Arg("sellToken"), BuyToken := l.Arg("buyToken"), ExecutedSell := l.Arg("executedSell"),
        ExecutedBuy := l.Arg("executedBuy"), BaselineBuy := l.Arg("baselineBuy"), SavingsUsd := l.Arg("savingsUsd")]
  }

  function PriceFields(l: DecodedLog): (r: Row)
    ensures r.Keys == {BatchId, Token, Price, RefPrice, DeviationBps}
  {
    map[BatchId := l.Arg("batchId"), Token := l.Arg("token"), Price := l.Arg("price"), RefPrice := l.Arg("refPrice"),
        DeviationBps := Number(DeviationOf(l.Amount("price"), l.Amount("refPrice")))]
  }

  function SubmissionFields(l: DecodedLog): (r: Row)
    ensures r.Keys == {BatchId, Solver, SolutionHash, ClaimedSavings, Accepted, RejectionReason}
  {
    map[BatchId := l.Arg("batchId"), Solver := l.Arg("solver"), SolutionHash := l.Arg("hash"),
        ClaimedSavings := l.Arg("claimedSavings"), Accepted := Flag(true), RejectionReason := Null]
  }

  function RouteFields(l: DecodedLog): (r: Row)
    ensures r.Keys == {BatchId, Adapter, TokenIn, TokenOut, AmountIn, AmountOut}
  {
    map[BatchId := l.Arg("batchId"), Adapter := l.Arg("adapter"), TokenIn := l.Arg("tokenIn"),
        TokenOut := l.Arg("tokenOut"), AmountIn := l.Arg("amountIn"), AmountOut := l.Arg("amountOut")]
  }

  function FailureFields(l: DecodedLog): (r: Row)
    ensures r.Keys == {BatchId, Owner, IntentIndex}
  {
    map[BatchId := l.Arg("batchId"), Owner := l.Arg("owner"), IntentIndex := l.Arg("intentIndex")]
  }

  function OpenedFields(l: DecodedLog): (r: Row)
    ensures r.Keys == {AuctionId, Token, Kind, CrossAt, Status, Extensions, LastBlockNumber, LastTxHash, LastLogIndex}
  {
    map[AuctionId := l.Arg("auctionId"), Token := l.Arg("token"), Kind := l.Arg("kind"), CrossAt := l.Arg("crossAt"),
        Status := Text("open"), Extensions := Number(0), LastBlockNumber := Number(l.blockNumber),
        LastTxHash := Number(l.txHash), LastLogIndex := Number(l.logIndex)]
  }

  function ExtendedFields(l: DecodedLog): (r: Row)
    ensures r.Keys == {Extensions, CollarBps}
  {
    map[Extensions := l.Arg("extensionCount"), CollarBps := l.Arg("newCollarBps")]
  }

  function FrozenFields(l: DecodedLog): (r: Row)
    ensures r.Keys == {Status, CommittedIntents, EscrowedValue}
  {
    map[Status := Text("frozen"), CommittedIntents := l.Arg("committedIntents"),
        EscrowedValue := l.Arg("escrowedValue")]
  }

  function CrossedFields(l: DecodedLog): (r: Row)
    ensures r.Keys == {Status, Price, Volume, Participants}
  {
    map[Status := Text("crossed"), Price := l.Arg("price"), Volume := l.Arg("volume"),
        Participants := l.Arg("participants")]
  }

  function AbortedFields(l: DecodedLog): (r: Row)
    ensures r.Keys == {Status, AbortReason}
  {
    map[Status := Text("aborted"), AbortReason := l.Arg("reason")]
  }

  function IndicativeFields(l: DecodedLog): (r: Row)
    ensures r.Keys == {AuctionId, Token, Ts, Price, Imbalance, MatchedVolume}
  {
    map[AuctionId := l.Arg("auctionId"), Token := l.Arg("token"), Ts := Number(l.blockTimestamp),
        Price := l.Arg("indicativePrice"), Imbalance := l.Arg("imbalance"), MatchedVolume := l.Arg("matchedVolume")]
  }

  function PrintFields(l: DecodedLog): (r: Row)
    ensures r.Keys == {Token, Day, Price, Volume, Participants, Sufficient}
  {
    map[Token := l.Arg("token"), Day := l.Arg("day"), Price := l.Arg("price"), Volume := l.Arg("volume"),
        Participants := l.Arg("participants"), Sufficient := l.Arg("sufficient")]
  }

  function WithheldFields(l: DecodedLog): (r: Row)
    ensures r.Keys == {Token, Day, Reason, Volume, Participants}
  {
    map[Token := l.Arg("token"), Day := l.Arg("day"), Reason := l.Arg("reason"), Volume := l.Arg("volume"),
        Participants := l.Arg("participants")]
  }

  function BondedFields(l: DecodedLog): (r: Row)
    ensures r.Keys == {BondedTotal}
  {
    map[BondedTotal := l.Arg("total")]
  }

  function ScoreFields(l: DecodedLog): (r: Row)
    ensures r.Keys == {BatchesWon, SavingsUsd}
  {
    map[BatchesWon := l.Arg("batchesWon"), SavingsUsd := l.Arg("savingsGeneratedUsd")]
  }

  function SlashedFields(l: DecodedLog): (r: Row)
    ensures r.Keys == {SlashAmount, SlashReason}
  {
    map[SlashAmount := l.Arg("amount"), SlashReason := l.Arg("reason")]
  }

  function SessionFields(l: DecodedLog): (r: Row)
    ensures r.Keys == {Kind, Ts, FromSession, ToSession}
  {
    map[Kind := Text("changed"), Ts := l.Arg("timestamp"), FromSession := l.Arg("from"), ToSession := l.Arg("to")]
  }

  function ProtectiveFields(l: DecodedLog): (r: Row)
    ensures r.Keys == {Kind, Ts, Token, Reason}
  {
    map[Kind := Text("protective"), Ts := Number(l.blockTimestamp), Token := l.Arg("token"), Reason := l.Arg("reason")]
  }

  function ClearedFields(l: DecodedLog): (r: Row)
    ensures r.Keys == {Kind, Ts, Token, HealthyUpdates}
  {
    map[Kind := Text("cleared"), Ts := Number(l.blockTimestamp), Token := l.Arg("token"),
        HealthyUpdates := l.Arg("healthyUpdates")]
  }

  function SettlementOps(l: DecodedLog): seq<Op>
  {
    match l.event
    case BatchSettled => [Upsert(Batches, Record(l, SettledFields(l)))]
    case BatchPassthrough => [Insert(Batches, Record(l, PassthroughFields(l)))]
    case IntentSettled => [Insert(Fills, Record(l, FillFields(l)))]
    case ClearingPrice => [Insert(Prices, Record(l, PriceFields(l)))]
    case SolutionSubmitted => [Insert(Solutions, Record(l, SubmissionFields(l)))]
    case SolutionRejected =>
      [Merge(Solutions, map[Deployment := Number(l.deployment), TxHash := Number(l.txHash), Solver := l.Arg("solver")],
        map[Accepted := Flag(false), RejectionReason := l.Arg("reason")])]
    case VenueRouted => [Insert(VenueRoutes, Record(l, RouteFields(l)))]
    case IntentCollectionFailed => [Insert(CollectionFailures, Record(l, FailureFields(l)))]
    case _ => []
  }

  function AuctionOps(l: DecodedLog): seq<Op>
  {
    match l.event
    case AuctionOpened => [Insert(Auctions, Record(l, OpenedFields(l)))]
    case AuctionExtended => [AuctionMerge(l, ExtendedFields(l))]
    case AuctionFrozen => [AuctionMerge(l, FrozenFields(l))]
    case CrossExecuted => [AuctionMerge(l, CrossedFields(l))]
    case AuctionAborted => [AuctionMerge(l, AbortedFields(l))]
    case _ => []
  }

  function PrintOps(l: DecodedLog): seq<Op>
  {
    match l.event
    case IndicativePublished => [Insert(Indicative, Record(l, IndicativeFields(l)))]
    case ClosingPrintPublished => [Insert(ClosingPrints, Record(l, PrintFields(l)))]
    case ClosingPrintWithheld => [Insert(ClosingPrintsWithheld, Record(l, WithheldFields(l)))]
    case _ => []
  }

  function RegistryOps(l: DecodedLog): seq<Op>
  {
    match l.event
    case SolverBonded => [SolverRow(l, "bonded", BondedFields(l))]
    case SolverScoreUpdated => [SolverRow(l, "score", ScoreFields(l))]
    case SolverSlashed => [SolverRow(l, "slashed", SlashedFields(l))]
    case SolverUnbondRequested => [SolverRow(l, "unbond_requested", map[])]
    case SessionChanged => [Insert(Sessions, Record(l, SessionFields(l)))]
    case TokenProtective => [Insert(Sessions, Record(l, ProtectiveFields(l)))]
    case TokenProtectiveCleared => [Insert(Sessions, Record(l, ClearedFields(l)))]
    case _ => []
  }

  /** project. No event belongs to more than one contract, and an event of none of them gives nothing. */
  function Project(l: DecodedLog): seq<Op>
  {
    SettlementOps(l) + AuctionOps(l) + PrintOps(l) + RegistryOps(l)
  }

  /** What every op of a log respects: it stays off batch_solutions, a new row names its deployment and its whole key,
      and an update leaves deployment and key alone. */
  predicate Fits(op: Op, deployment: nat)
  {
    && op.table != BatchSolutions
    && match op
       case Merge(t, _, fields) => fields.Keys !! Keys(t) + {Deployment}
       case _ => Keys(op.table) + {Deployment} <= op.row.Keys && op.row[Deployment] == Number(deployment)
  }

  lemma SettlementFits(l: DecodedLog)
    ensures |SettlementOps(l)| <= 1 && forall op :: op in SettlementOps(l) ==> Fits(op, l.deployment)
  {
    hide DecodedLog.Arg, DecodedLog.Amount, Record, AuctionMerge, SolverRow;
  }

  lemma AuctionFits(l: DecodedLog)
    ensures |AuctionOps(l)| <= 1 && forall op :: op in AuctionOps(l) ==> Fits(op, l.deployment)
  {
    hide DecodedLog.Arg, DecodedLog.Amount, Record, AuctionMerge, SolverRow;
  }

  lemma PrintFits(l: DecodedLog)
    ensures |PrintOps(l)| <= 1 && forall op :: op in PrintOps(l) ==> Fits(op, l.deployment)
  {
    hide DecodedLog.Arg, DecodedLog.Amount, Record, AuctionMerge, SolverRow;
  }

  lemma RegistryFits(l: DecodedLog)
    ensures |RegistryOps(l)| <= 1 && forall op :: op in RegistryOps(l) ==> Fits(op, l.deployment)
  {
    hide DecodedLog.Arg, DecodedLog.Amount, Record, AuctionMerge, SolverRow;
  }

  /** One log, at most one op, and it fits. */
  lemma ProjectFits(l: DecodedLog)
    ensures |Project(l)| <= 1
    ensures forall op :: op in Project(l) ==> Fits(op, l.deployment)
  {
    SettlementFits(l);
    AuctionFits(l);
    PrintFits(l);
    RegistryFits(l);
    hide DecodedLog.Arg, Record, Fits;
    OneContract(l);
  }

  lemma OneContract(l: DecodedLog)
    ensures SettlementOps(l) == [] || (AuctionOps(l) == [] && PrintOps(l) == [] && RegistryOps(l) == [])
    ensures AuctionOps(l) == [] || (PrintOps(l) == [] && RegistryOps(l) == [])
    ensures PrintOps(l) == [] || RegistryOps(l) == []
  {
    hide DecodedLog.Arg, DecodedLog.Amount, Record, AuctionMerge, SolverRow;
  }

  // ----- applying ops to the tables

  type Tables = map<Table, seq<Row>>

  function AllTables(): set<Table>
  {
    {Batches, Auctions, BatchSolutions, Fills, Prices, Indicative, ClosingPrints, ClosingPrintsWithheld,
     Solvers, Sessions, Solutions, VenueRoutes, CollectionFailures}
  }

  lemma EveryTable(t: Table)
    ensures t in AllTables()
  {
  }

  ghost predicate Complete(ts: Tables) { forall t: Table :: t in ts }

  function Matches(row: Row, key: Row): bool { forall k :: k in key ==> k in row && row[k] == key[k] }

  /** The key columns of a row, null where it has none. */
  function KeyOf(t: Table, row: Row): Row
  {
    map k | k in Keys(t) :: if k in row then row[k] else Null
  }

  /** Object.assign on every row that matches. */
  function MergeRows(rows: seq<Row>, key: Row, fields: Row): (r: seq<Row>)
    ensures |r| == |rows|
  {
    seq(|rows|, i requires 0 <= i < |rows| => if Matches(rows[i], key) then rows[i] + fields else rows[i])
  }

  /** Position of the first row with the key. */
  function FindRow(rows: seq<Row>, key: Row): (r: Option<nat>)
    ensures r.Some? ==> r.value < |rows| && Matches(rows[r.value], key)
    ensures r.None? ==> forall i :: 0 <= i < |rows| ==> !Matches(rows[i], key)
  {
    if rows == [] then None
    else match FindRow(rows[..|rows| - 1], key)
      case Some(i) => Some(i)
      case None => if Matches(rows[|rows| - 1], key) then Some(|rows| - 1) else None
  }

  function ApplyTo(rows: seq<Row>, op: Op): seq<Row>
  {
    match op
    case Merge(_, key, fields) => MergeRows(rows, key, fields)
    case Insert(t, row) => if FindRow(rows, KeyOf(t, row)).Some? then rows else rows + [row]
    case Upsert(t, row) =>
      match FindRow(rows, KeyOf(t, row))
      case None => rows + [row]
      case Some(i) => rows[i := rows[i] + row]
  }

  function Apply(ts: Tables, op: Op): Tables
  {
    ts[op.table := ApplyTo(if op.table in ts then ts[op.table] else [], op)]
  }

  function ApplyAll(ts: Tables, ops: seq<Op>): Tables
  {
    if ops == [] then ts else Apply(ApplyAll(ts, ops[..|ops| - 1]), ops[|ops| - 1])
  }

  /** The fold of project over a list of logs. */
  function ProjectAll(ts: Tables, logs: seq<DecodedLog>): Tables
  {
    if logs == [] then ts else ApplyAll(ProjectAll(ts, logs[..|logs| - 1]), Project(logs[|logs| - 1]))
  }

  // ----- primary keys stay unique

  /** Every row of the table names its whole key and belongs to the deployment, and no two rows share a key. */
  ghost predicate RowsOk(t: Table, rows: seq<Row>, deployment: nat)
  {
    && (forall i :: 0 <= i < |rows| ==>
      Keys(t) + {Deployment} <= rows[i].Keys && rows[i][Deployment] == Number(deployment))
    && (forall i, j :: 0 <= i < j < |rows| ==> KeyOf(t, rows[i]) != KeyOf(t, rows[j]))
  }

  ghost predicate TablesOk(ts: Tables, deployment: nat)
  {
    forall t :: t in ts ==> RowsOk(t, ts[t], deployment)
  }

  /** A row matches its own key, and any row with the whole key that matches it has the same key. */
  lemma MatchIsSameKey(t: Table, row: Row, other: Row)
    requires Keys(t) <= row.Keys && Keys(t) <= other.Keys
    ensures Matches(other, KeyOf(t, row)) <==> KeyOf(t, other) == KeyOf(t, row)
  {
    if Matches(other, KeyOf(t, row)) {
      assert forall k :: k in Keys(t) ==> KeyOf(t, other)[k] == KeyOf(t, row)[k];
    } else {
      var k :| k in KeyOf(t, row) && !(k in other && other[k] == KeyOf(t, row)[k]);
      assert KeyOf(t, other)[k] != KeyOf(t, row)[k];
    }
  }

  /** Updating columns outside the key keeps the key. */
  lemma KeyStays(t: Table, row: Row, fields: Row)
    requires forall k :: k in fields && k in Keys(t) ==> k in row && row[k] == fields[k]
    ensures KeyOf(t, row + fields) == KeyOf(t, row)
  {
  }

  lemma MergeKeeps(t: Table, rows: seq<Row>, key: Row, fields: Row, deployment: nat)
    requires RowsOk(t, rows, deployment)
    requires fields.Keys !! Keys(t) + {Deployment}
    ensures RowsOk(t, MergeRows(rows, key, fields), deployment)
  {
    var after := MergeRows(rows, key, fields);
    forall i | 0 <= i < |rows|
      ensures KeyOf(t, after[i]) == KeyOf(t, rows[i]) && Deployment in after[i]
        && after[i][Deployment] == Number(deployment)
    {
      KeyStays(t, rows[i], fields);
    }
    hide KeyOf, Matches;
  }

  lemma InsertKeeps(t: Table, rows: seq<Row>, op: Op, deployment: nat)
    requires RowsOk(t, rows, deployment)
    requires !op.Merge? && op.table == t
    requires Keys(t) + {Deployment} <= op.row.Keys && op.row[Deployment] == Number(deployment)
    ensures RowsOk(t, ApplyTo(rows, op), deployment)
  {
    var key := KeyOf(t, op.row);
    match FindRow(rows, key)
    case None =>
      forall i | 0 <= i < |rows| ensures KeyOf(t, rows[i]) != key {
        MatchIsSameKey(t, op.row, rows[i]);
      }
    case Some(i) =>
      MatchIsSameKey(t, op.row, rows[i]);
      var after := rows[i] + op.row;
      assert KeyOf(t, after) == key;
      hide KeyOf, Matches, FindRow;
  }

  lemma ApplyKeeps(ts: Tables, op: Op, deployment: nat)
    requires TablesOk(ts, deployment) && Fits(op, deployment)
    ensures TablesOk(Apply(ts, op), deployment)
    ensures forall t :: t in ts ==> t in Apply(ts, op)
    ensures BatchSolutions in ts ==> Apply(ts, op)[BatchSolutions] == ts[BatchSolutions]
  {
    var rows := if op.table in ts then ts[op.table] else [];
    assert RowsOk(op.table, rows, deployment);
    hide RowsOk, ApplyTo, KeyOf;
    match op {
      case Merge(t, key, fields) =>
        MergeKeeps(t, rows, key, fields, deployment);
        assert ApplyTo(rows, op) == MergeRows(rows, key, fields) by { MergeIs(rows, op); }
      case Insert(t, row) => InsertKeeps(t, rows, op, deployment);
      case Upsert(t, row) => InsertKeeps(t, rows, op, deployment);
    }
  }

  lemma MergeIs(rows: seq<Row>, op: Op)
    requires op.Merge?
    ensures ApplyTo(rows, op) == MergeRows(rows, op.key, op.set_)
  {
  }

  lemma {:induction false} ApplyAllKeeps(ts: Tables, ops: seq<Op>, deployment: nat)
    requires TablesOk(ts, deployment) && forall op :: op in ops ==> Fits(op, deployment)
    ensures TablesOk(ApplyAll(ts, ops), deployment)
    ensures forall t :: t in ts ==> t in ApplyAll(ts, ops)
    ensures BatchSolutions in ts ==> ApplyAll(ts, ops)[BatchSolutions] == ts[BatchSolutions]
  {
    hide TablesOk, Apply, Fits;
    if ops != [] {
      ApplyAllKeeps(ts, ops[..|ops| - 1], deployment);
      ApplyKeeps(ApplyAll(ts, ops[..|ops| - 1]), ops[|ops| - 1], deployment);
    }
  }

  /** Whatever logs of one deployment are folded in, later events upserting and merging earlier rows included, every
      table keeps unique primary keys and only this deployment's rows. */
  lemma {:induction false} ProjectAllKeeps(ts: Tables, logs: seq<DecodedLog>, deployment: nat)
    requires TablesOk(ts, deployment) && forall l :: l in logs ==> l.deployment == deployment
    ensures TablesOk(ProjectAll(ts, logs), deployment)
    ensures forall t :: t in ts ==> t in ProjectAll(ts, logs)
    ensures BatchSolutions in ts ==> ProjectAll(ts, logs)[BatchSolutions] == ts[BatchSolutions]
  {
    hide TablesOk, ApplyAll, Fits, Project;
    if logs != [] {
      ProjectAllKeeps(ts, logs[..|logs| - 1], deployment);
      ProjectFits(logs[|logs| - 1]);
      ApplyAllKeeps(ProjectAll(ts, logs[..|logs| - 1]), Project(logs[|logs| - 1]), deployment);
    }
  }
}
