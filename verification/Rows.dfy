/** What the domain tables say, told by the logs alone (indexer/src/project.ts). */
module Rows {
  import opened Common
  import opened Projection
  import opened Replay
  import Store

  // ----- one row of a table

  /** The row with this key, if there is one. */
  function Lookup(rows: seq<Row>, key: Row): Option<Row>
  {
    match FindRow(rows, key) case Some(i) => Some(rows[i]) case None => None
  }

  function RowOf(ts: Tables, t: Table, key: Row): Option<Row>
  {
    if t in ts then Lookup(ts[t], key) else None
  }

  /** A row of a sound table that matches a whole key is the row of that key. */
  lemma LookupIs(t: Table, rows: seq<Row>, deployment: nat, key: Row, i: nat)
    requires RowsOk(t, rows, deployment) && key.Keys == Keys(t)
    requires i < |rows| && Matches(rows[i], key)
    ensures Lookup(rows, key) == Some(rows[i])
  {
    var j := FindRow(rows, key).value;
    MatchIsKey(t, rows[i], key);
    MatchIsKey(t, rows[j], key);
    hide FindRow, Matches, KeyOf;
  }

  lemma MatchIsKey(t: Table, row: Row, key: Row)
    requires key.Keys == Keys(t) && Keys(t) <= row.Keys
    ensures Matches(row, key) <==> KeyOf(t, row) == key
  {
    if Matches(row, key) {
      assert forall k :: k in key ==> KeyOf(t, row)[k] == key[k];
    }
  }

  /** Inserting gives the key a row unless it has one, and leaves every other key alone. */
  lemma LookupInsert(t: Table, rows: seq<Row>, row: Row, deployment: nat, key: Row)
    requires RowsOk(t, rows, deployment) && key.Keys == Keys(t)
    requires Keys(t) + {Deployment} <= row.Keys && row[Deployment] == Number(deployment)
    ensures Lookup(ApplyTo(rows, Insert(t, row)), key) ==
      if KeyOf(t, row) == key && Lookup(rows, key).None? then Some(row) else Lookup(rows, key)
  {
    var after := ApplyTo(rows, Insert(t, row));
    InsertKeeps(t, rows, Insert(t, row), deployment);
    MatchIsKey(t, row, key);
    hide KeyOf, Matches;
    LookupAppended(t, rows, after, row, deployment, key);
  }

  lemma LookupAppended(t: Table, rows: seq<Row>, after: seq<Row>, row: Row, deployment: nat, key: Row)
    requires RowsOk(t, rows, deployment) && RowsOk(t, after, deployment) && key.Keys == Keys(t)
    requires after == rows || after == rows + [row]
    requires after == rows ==> KeyOf(t, row) == key ==> Lookup(rows, key).Some?
    requires Matches(row, key) <==> KeyOf(t, row) == key
    ensures after == rows + [row] && KeyOf(t, row) == key ==> Lookup(after, key) == Some(row)
    ensures !(after == rows + [row] && KeyOf(t, row) == key) ==> Lookup(after, key) == Lookup(rows, key)
  {
    hide FindRow, RowsOk, KeyOf, Matches;
    if after == rows + [row] {
      if Matches(row, key) {
        assert after[|rows|] == row;
        LookupIs(t, after, deployment, key, |rows|);
      } else {
        match FindRow(rows, key) {
          case Some(i) =>
            assert after[i] == rows[i];
            LookupIs(t, after, deployment, key, i);
          case None =>
            assert forall i :: 0 <= i < |rows| ==> after[i] == rows[i];
        }
      }
    }
  }

  /** Upserting gives the key the row, over what it had. */
  lemma LookupUpsert(t: Table, rows: seq<Row>, row: Row, deployment: nat, key: Row)
    requires RowsOk(t, rows, deployment) && key.Keys == Keys(t)
    requires Keys(t) + {Deployment} <= row.Keys && row[Deployment] == Number(deployment)
    ensures Lookup(ApplyTo(rows, Upsert(t, row)), key) ==
      if KeyOf(t, row) != key then Lookup(rows, key)
      else match Lookup(rows, key) case Some(was) => Some(was + row) case None => Some(row)
  {
    var after := ApplyTo(rows, Upsert(t, row));
    InsertKeeps(t, rows, Upsert(t, row), deployment);
    MatchIsKey(t, row, key);
    match FindRow(rows, KeyOf(t, row)) {
      case None =>
        hide KeyOf, Matches;
        LookupAppended(t, rows, after, row, deployment, key);
      case Some(i) =>
        MatchIsKey(t, rows[i], KeyOf(t, row));
        KeyStays(t, rows[i], row);
        LookupReplaced(t, rows, after, i, deployment, key);
    }
  }

  /** Replacing a row by one of the same key changes that key's row only. */
  lemma LookupReplaced(t: Table, rows: seq<Row>, after: seq<Row>, i: nat, deployment: nat, key: Row)
    requires RowsOk(t, rows, deployment) && RowsOk(t, after, deployment) && key.Keys == Keys(t)
    requires i < |rows| == |after| && after == rows[i := after[i]] && KeyOf(t, after[i]) == KeyOf(t, rows[i])
    ensures Lookup(after, key) == if KeyOf(t, rows[i]) == key then Some(after[i]) else Lookup(rows, key)
  {
    MatchIsKey(t, rows[i], key);
    MatchIsKey(t, after[i], key);
    hide FindRow, RowsOk, KeyOf, Matches;
    if Matches(after[i], key) {
      LookupIs(t, after, deployment, key, i);
    } else {
      match FindRow(rows, key) {
        case Some(j) =>
          assert after[j] == rows[j];
          LookupIs(t, after, deployment, key, j);
        case None =>
          assert forall j :: 0 <= j < |rows| && j != i ==> after[j] == rows[j];
      }
    }
  }

  /** Merging updates the rows that match, each in place. */
  lemma LookupMerge(t: Table, rows: seq<Row>, which: Row, fields: Row, deployment: nat, key: Row)
    requires RowsOk(t, rows, deployment) && key.Keys == Keys(t)
    requires fields.Keys !! Keys(t) + {Deployment}
    ensures Lookup(ApplyTo(rows, Merge(t, which, fields)), key) ==
      match Lookup(rows, key)
      case Some(row) => Some(if Matches(row, which) then row + fields else row)
      case None => None
  {
    var after := MergeRows(rows, which, fields);
    MergeKeeps(t, rows, which, fields, deployment);
    forall i | 0 <= i < |rows| ensures Matches(after[i], key) <==> Matches(rows[i], key) {
      MatchIsKey(t, rows[i], key);
      MatchIsKey(t, after[i], key);
      KeyStays(t, rows[i], fields);
    }
    hide FindRow, RowsOk, KeyOf, Matches;
    match FindRow(rows, key) {
      case Some(i) => LookupIs(t, after, deployment, key, i);
      case None =>
    }
  }

  // ----- what the logs hold

  /** The first log of a kind, the last one, and the logs before and after the first. */
  function First(logs: seq<DecodedLog>, p: DecodedLog -> bool): (r: Option<DecodedLog>)
    ensures r.None? <==> forall l :: l in logs ==> !p(l)
    ensures r.Some? ==> r.value in logs && p(r.value)
  {
    if logs == [] then None
    else match First(logs[..|logs| - 1], p)
      case Some(l) => Some(l)
      case None => if p(logs[|logs| - 1]) then Some(logs[|logs| - 1]) else None
  }

  function Last(logs: seq<DecodedLog>, p: DecodedLog -> bool): (r: Option<DecodedLog>)
    ensures r.None? <==> forall l :: l in logs ==> !p(l)
    ensures r.Some? ==> r.value in logs && p(r.value)
  {
    if logs == [] then None
    else if p(logs[|logs| - 1]) then Some(logs[|logs| - 1])
    else Last(logs[..|logs| - 1], p)
  }

  function Before(logs: seq<DecodedLog>, p: DecodedLog -> bool): seq<DecodedLog>
  {
    if logs == [] then []
    else
      var init := logs[..|logs| - 1];
      if First(init, p).Some? then Before(init, p) else if p(logs[|logs| - 1]) then init else logs
  }

  function After(logs: seq<DecodedLog>, p: DecodedLog -> bool): seq<DecodedLog>
  {
    if logs == [] then []
    else
      var init := logs[..|logs| - 1];
      if First(init, p).Some? then After(init, p) + [logs[|logs| - 1]] else []
  }

  /** What one more log changes. */
  lemma OneMore(logs: seq<DecodedLog>, l: DecodedLog, p: DecodedLog -> bool)
    ensures First(logs + [l], p) == if First(logs, p).Some? then First(logs, p) else if p(l) then Some(l) else None
    ensures Last(logs + [l], p) == if p(l) then Some(l) else Last(logs, p)
    ensures Before(logs + [l], p) ==
      if First(logs, p).Some? then Before(logs, p) else if p(l) then logs else logs + [l]
    ensures After(logs + [l], p) == if First(logs, p).Some? then After(logs, p) + [l] else []
  {
    assert (logs + [l])[..|logs|] == logs;
  }

  // ----- one log, one row

  /** What the op of a log makes of one row. */
  function Changed(row: Option<Row>, ops: seq<Op>, t: Table, key: Row): Option<Row>
  {
    if ops == [] || ops[0].table != t then row
    else match ops[0]
      case Insert(_, r) => if KeyOf(t, r) == key && row.None? then Some(r) else row
      case Upsert(_, r) =>
        if KeyOf(t, r) != key then row
        else (match row case Some(was) => Some(was + r) case None => Some(r))
      case Merge(_, which, fields) =>
        match row case Some(r) => Some(if Matches(r, which) then r + fields else r) case None => None
  }

  lemma OneChange(ts: Tables, op: Op, deployment: nat, t: Table, key: Row)
    requires TablesOk(ts, deployment) && Complete(ts) && Fits(op, deployment) && key.Keys == Keys(t)
    ensures RowOf(Apply(ts, op), t, key) == Changed(RowOf(ts, t, key), [op], t, key)
  {
    assert RowsOk(t, ts[t], deployment);
    hide RowsOk, Lookup, ApplyTo, KeyOf, Matches;
    if op.table == t {
      match op {
        case Insert(_, row) => LookupInsert(t, ts[t], row, deployment, key);
        case Upsert(_, row) => LookupUpsert(t, ts[t], row, deployment, key);
        case Merge(_, which, fields) => LookupMerge(t, ts[t], which, fields, deployment, key);
      }
    }
  }

  /** One more log changes a row as its op says. */
  lemma OneLog(ts: Tables, l: DecodedLog, t: Table, key: Row)
    requires TablesOk(ts, l.deployment) && Complete(ts) && key.Keys == Keys(t)
    ensures RowOf(ApplyAll(ts, Project(l)), t, key) == Changed(RowOf(ts, t, key), Project(l), t, key)
    ensures TablesOk(ApplyAll(ts, Project(l)), l.deployment) && Complete(ApplyAll(ts, Project(l)))
  {
    hide Project, TablesOk, RowOf, Changed, Fits;
    ProjectFits(l);
    ApplyAllKeeps(ts, Project(l), l.deployment);
    if Project(l) != [] {
      OneChange(ts, Project(l)[0], l.deployment, t, key);
      assert Project(l) == [Project(l)[0]] && Project(l)[..0] == [];
    } else {
      NothingChanges(RowOf(ts, t, key), t, key);
    }
  }

  lemma NothingChanges(row: Option<Row>, t: Table, key: Row)
    ensures Changed(row, [], t, key) == row
  {
  }

  /** The table each event writes, if it writes one. */
  function Writes(event: EventName): Option<Table>
  {
    match event
    case BatchSettled => Some(Batches)
    case BatchPassthrough => Some(Batches)
    case IntentSettled => Some(Fills)
    case ClearingPrice => Some(Prices)
    case SolutionSubmitted => Some(Solutions)
    case SolutionRejected => Some(Solutions)
    case VenueRouted => Some(VenueRoutes)
    case IntentCollectionFailed => Some(CollectionFailures)
    case IndicativePublished => Some(Indicative)
    case ClosingPrintPublished => Some(ClosingPrints)
    case ClosingPrintWithheld => Some(ClosingPrintsWithheld)
    case SolverBonded => Some(Solvers)
    case SolverScoreUpdated => Some(Solvers)
    case SolverSlashed => Some(Solvers)
    case SolverUnbondRequested => Some(Solvers)
    case SessionChanged => Some(Sessions)
    case TokenProtective => Some(Sessions)
    case TokenProtectiveCleared => Some(Sessions)
    case OtherEvent => None
    case _ => Some(Auctions)
  }

  /** Every event writes its own table and no other, an event of no contract none. */
  lemma OwnTable(l: DecodedLog)
    ensures if Writes(l.event).None? then Project(l) == []
      else |Project(l)| == 1 && Project(l)[0].table == Writes(l.event).value
  {
    hide DecodedLog.Arg, DecodedLog.Amount, Record, SettledFields, PassthroughFields, FillFields, PriceFields,
      SubmissionFields, RouteFields, FailureFields, OpenedFields, ExtendedFields, FrozenFields, CrossedFields,
      AbortedFields, IndicativeFields, PrintFields, WithheldFields, SessionFields, ProtectiveFields, ClearedFields,
      AuctionMerge, SolverRow;
  }

  // ----- batches

  function BatchKey(deployment: nat, batch: Value): Row
  {
    map[Deployment := Number(deployment), BatchId := batch]
  }

  function Settles(batch: Value): DecodedLog -> bool
  {
    (l: DecodedLog) => l.event == BatchSettled && l.Arg("batchId") == batch
  }

  function PassesThrough(batch: Value): DecodedLog -> bool
  {
    (l: DecodedLog) => l.event == BatchPassthrough && l.Arg("batchId") == batch
  }

  /** The row carries where the log came from. */
  predicate From(row: Row, l: DecodedLog)
  {
    && {Deployment, ChainId, BlockNumber, BlockTimestamp, TxHash, LogIndex} <= row.Keys
    && row[Deployment] == Number(l.deployment) && row[ChainId] == Number(l.chainId)
    && row[BlockNumber] == Number(l.blockNumber) && row[BlockTimestamp] == Number(l.blockTimestamp)
    && row[TxHash] == Number(l.txHash) && row[LogIndex] == Number(l.logIndex)
  }

  /** The row says this column holds this value. */
  predicate Says(row: Row, c: Column, v: Value) { c in row && row[c] == v }

  /** A settled batch: the log's session, counts, figures and solver. */
  predicate SettledBy(row: Row, l: DecodedLog)
  {
    && From(row, l) && Says(row, Outcome, Text("settled")) && Says(row, BatchId, l.Arg("batchId"))
    && Says(row, Session, l.Arg("session")) && Says(row, IntentCount, l.Arg("intentCount"))
    && Says(row, NettedUsd, l.Arg("nettedVolumeUsd")) && Says(row, RoutedUsd, l.Arg("routedVolumeUsd"))
    && Says(row, SavingsUsd, l.Arg("totalSavingsUsd")) && Says(row, SolverFeeUsd, l.Arg("solverFeeUsd"))
    && Says(row, ProtocolFeeUsd, l.Arg("protocolFeeUsd")) && Says(row, Solver, l.Arg("solver"))
  }

  /** A batch that only passed through: expired when its winner never finalized, with the log's reason and count, and
      no settled figures. */
  predicate PassedBy(row: Row, l: DecodedLog)
  {
    && From(row, l) && Says(row, BatchId, l.Arg("batchId")) && Says(row, IntentCount, l.Arg("intentCount"))
    && Says(row, Reason, l.Arg("reason"))
    && Says(row, Outcome, Text(if l.Arg("reason") == Text("winner never finalized") then "expired" else "passthrough"))
    && row.Keys == {BatchId, Outcome, Reason, IntentCount} + Origin()
  }

  /** What a batch's row says: the last settlement decides, with the reason of the first passthrough before any
      settlement kept as a note; without a settlement the first passthrough; without either there is no row. */
  predicate BatchTold(logs: seq<DecodedLog>, batch: Value, row: Option<Row>)
  {
    match Last(logs, Settles(batch))
    case Some(l) =>
      && row.Some? && SettledBy(row.value, l)
      && (match First(Before(logs, Settles(batch)), PassesThrough(batch))
          case Some(note) => Says(row.value, Reason, note.Arg("reason"))
          case None => Reason !in row.value)
    case None =>
      match First(logs, PassesThrough(batch))
      case Some(l) => row.Some? && PassedBy(row.value, l)
      case None => row.None?
  }

  function Origin(): set<Column> { {Deployment, ChainId, BlockNumber, BlockTimestamp, TxHash, LogIndex} }

  /** A record keeps the event's own columns and carries where the log came from. */
  lemma RecordSays(l: DecodedLog, fields: Row)
    requires fields.Keys !! Origin()
    ensures From(Record(l, fields), l)
    ensures Says(Record(l, fields), Deployment, Number(l.deployment))
    ensures forall c :: c in fields ==> Says(Record(l, fields), c, fields[c])
    ensures Record(l, fields).Keys == fields.Keys + Origin()
  {
  }

  lemma SettledOp(l: DecodedLog) returns (row: Row)
    requires l.event == BatchSettled
    ensures Project(l) == [Upsert(Batches, row)] && SettledBy(row, l) && Reason !in row
    ensures KeyOf(Batches, row) == BatchKey(l.deployment, l.Arg("batchId"))
  {
    hide DecodedLog.Arg, KeyOf, Record, SettledFields, Project, SettledBy;
    row := Record(l, SettledFields(l));
    SettlementOnly(l);
    SettledRow(l);
  }

  lemma SettledRow(l: DecodedLog)
    ensures var row := Record(l, SettledFields(l));
      && SettledBy(row, l) && Reason !in row && KeyOf(Batches, row) == BatchKey(l.deployment, l.Arg("batchId"))
  {
    hide DecodedLog.Arg, KeyOf, Record, SettledFields, From;
    RecordSays(l, SettledFields(l));
    SettledColumns(l);
    KeyOfBatch(l, Record(l, SettledFields(l)));
  }

  /** What a settlement event projects to is its own ops. */
  lemma SettlementOnly(l: DecodedLog)
    requires SettlementOps(l) != []
    ensures Project(l) == SettlementOps(l)
  {
    hide DecodedLog.Arg, SettlementOps;
    OneContract(l);
  }

  lemma SettledColumns(l: DecodedLog)
    ensures var f := SettledFields(l);
      && f[Outcome] == Text("settled") && f[BatchId] == l.Arg("batchId")
      && f[Session] == l.Arg("session") && f[IntentCount] == l.Arg("intentCount")
      && f[NettedUsd] == l.Arg("nettedVolumeUsd") && f[RoutedUsd] == l.Arg("routedVolumeUsd")
      && f[SavingsUsd] == l.Arg("totalSavingsUsd") && f[SolverFeeUsd] == l.Arg("solverFeeUsd")
      && f[ProtocolFeeUsd] == l.Arg("protocolFeeUsd") && f[Solver] == l.Arg("solver")
  {
    hide DecodedLog.Arg;
  }

  lemma PassedOp(l: DecodedLog) returns (row: Row)
    requires l.event == BatchPassthrough
    ensures Project(l) == [Insert(Batches, row)] && PassedBy(row, l)
    ensures KeyOf(Batches, row) == BatchKey(l.deployment, l.Arg("batchId"))
  {
    hide DecodedLog.Arg, KeyOf, Record, PassthroughFields, Project, PassedBy;
    row := Record(l, PassthroughFields(l));
    SettlementOnly(l);
    PassedRow(l);
  }

  lemma PassedRow(l: DecodedLog)
    ensures var row := Record(l, PassthroughFields(l));
      PassedBy(row, l) && KeyOf(Batches, row) == BatchKey(l.deployment, l.Arg("batchId"))
  {
    hide DecodedLog.Arg, KeyOf, Record, PassthroughFields, From;
    RecordSays(l, PassthroughFields(l));
    PassedColumns(l);
    KeyOfBatch(l, Record(l, PassthroughFields(l)));
  }

  lemma PassedColumns(l: DecodedLog)
    ensures var f := PassthroughFields(l);
      && f[BatchId] == l.Arg("batchId") && f[IntentCount] == l.Arg("intentCount") && f[Reason] == l.Arg("reason")
      && f[Outcome] == Text(if l.Arg("reason") == Text("winner never finalized") then "expired" else "passthrough")
  {
    hide DecodedLog.Arg;
  }

  lemma SameBatch(deployment: nat, a: Value, b: Value)
    ensures BatchKey(deployment, a) == BatchKey(deployment, b) <==> a == b
  {
    assert BatchKey(deployment, a)[BatchId] == a && BatchKey(deployment, b)[BatchId] == b;
  }

  lemma SettledOver(was: Row, row: Row, l: DecodedLog)
    requires SettledBy(row, l) && Reason !in row
    ensures SettledBy(was + row, l)
    ensures if Reason in was then Says(was + row, Reason, was[Reason]) else Reason !in was + row
  {
    hide DecodedLog.Arg;
  }

  /** Only a settlement or a passthrough touches the batches, each the row of its own batch. */
  lemma BatchOps(l: DecodedLog, row: Option<Row>, batch: Value)
    ensures var after := Changed(row, Project(l), Batches, BatchKey(l.deployment, batch));
      if Settles(batch)(l) then
        && after.Some? && SettledBy(after.value, l)
        && (if row.Some? && Reason in row.value then Says(after.value, Reason, row.value[Reason])
            else Reason !in after.value)
      else if PassesThrough(batch)(l) && row.None? then after.Some? && PassedBy(after.value, l)
      else after == row
  {
    hide Project, DecodedLog.Arg, KeyOf, SettledBy, PassedBy, BatchKey;
    SameBatch(l.deployment, batch, l.Arg("batchId"));
    if l.event == BatchSettled {
      var r := SettledOp(l);
      if row.Some? {
        SettledOver(row.value, r, l);
      }
    } else if l.event == BatchPassthrough {
      var r := PassedOp(l);
    } else {
      OwnTable(l);
    }
  }

  lemma KeyOfBatch(l: DecodedLog, row: Row)
    requires Says(row, Deployment, Number(l.deployment)) && BatchId in row
    ensures KeyOf(Batches, row) == BatchKey(l.deployment, row[BatchId])
  {
  }

  /** The tables folded from a list of logs of one deployment. */
  function Folded(logs: seq<DecodedLog>): Tables { ProjectAll(Store.EmptyTables(), logs) }

  lemma FoldedOk(logs: seq<DecodedLog>, deployment: nat)
    requires Owned(logs, deployment)
    ensures TablesOk(Folded(logs), deployment) && Complete(Folded(logs))
  {
    forall t: Table ensures t in Store.EmptyTables() {
      EveryTable(t);
    }
    hide ProjectAll, AllTables;
    ProjectAllKeeps(Store.EmptyTables(), logs, deployment);
  }

  lemma FoldedStart(t: Table, key: Row)
    ensures RowOf(Folded([]), t, key) == None
  {
    EveryTable(t);
  }

  /** One more log of the deployment, and what it makes of one row. */
  lemma FoldedStep(logs: seq<DecodedLog>, deployment: nat, t: Table, key: Row)
    requires logs != [] && Owned(logs, deployment) && key.Keys == Keys(t)
    ensures var init, l := logs[..|logs| - 1], logs[|logs| - 1];
      && Owned(init, deployment) && l.deployment == deployment
      && RowOf(Folded(logs), t, key) == Changed(RowOf(Folded(init), t, key), Project(l), t, key)
  {
    hide Project, ApplyAll, RowOf, Changed;
    var init, l := logs[..|logs| - 1], logs[|logs| - 1];
    FoldedOk(init, deployment);
    OneLog(Folded(init), l, t, key);
  }

  /** Over every list of logs of a deployment, every batch's row says what the logs say of that batch. */
  lemma {:induction false} BatchRows(logs: seq<DecodedLog>, deployment: nat, batch: Value)
    requires Owned(logs, deployment)
    ensures BatchTold(logs, batch, RowOf(Folded(logs), Batches, BatchKey(deployment, batch)))
  {
    var key := BatchKey(deployment, batch);
    hide Folded, RowOf, Changed, Project, DecodedLog.Arg, Owned, SettledBy, PassedBy;
    if logs == [] {
      FoldedStart(Batches, key);
    } else {
      var init, l := logs[..|logs| - 1], logs[|logs| - 1];
      assert logs == init + [l];
      FoldedStep(logs, deployment, Batches, key);
      BatchRows(init, deployment, batch);
      var row := RowOf(Folded(init), Batches, key);
      BatchOps(l, row, batch);
      BatchToldStep(init, l, batch, row, RowOf(Folded(logs), Batches, key));
    }
  }

  lemma BatchToldStep(init: seq<DecodedLog>, l: DecodedLog, batch: Value, row: Option<Row>, after: Option<Row>)
    requires BatchTold(init, batch, row)
    requires if Settles(batch)(l) then
        && after.Some? && SettledBy(after.value, l)
        && (if row.Some? && Reason in row.value then Says(after.value, Reason, row.value[Reason])
            else Reason !in after.value)
      else if PassesThrough(batch)(l) && row.None? then after.Some? && PassedBy(after.value, l)
      else after == row
    ensures BatchTold(init + [l], batch, after)
  {
    hide First, Last, Before, SettledBy, DecodedLog.Arg;
    OneMore(init, l, Settles(batch));
    OneMore(init, l, PassesThrough(batch));
    BeforeNone(init, Settles(batch));
    BeforeNone(init + [l], Settles(batch));
  }

  /** Where nothing of a kind occurs, everything is before it. */
  lemma {:induction false} BeforeNone(logs: seq<DecodedLog>, p: DecodedLog -> bool)
    ensures First(logs, p).None? ==> Before(logs, p) == logs
    ensures First(logs, p).None? <==> Last(logs, p).None?
  {
  }

  // ----- auctions

  function AuctionKey(deployment: nat, auction: Value): Row
  {
    map[Deployment := Number(deployment), AuctionId := auction]
  }

  function Is(event: EventName, auction: Value): DecodedLog -> bool
  {
    (l: DecodedLog) => l.event == event && l.Arg("auctionId") == auction
  }

  /** The events that decide an auction's status. */
  function Decides(auction: Value): DecodedLog -> bool
  {
    (l: DecodedLog) =>
      (l.event == AuctionFrozen || l.event == CrossExecuted || l.event == AuctionAborted)
        && l.Arg("auctionId") == auction
  }

  predicate IsUpdate(event: EventName)
  {
    event == AuctionExtended || event == AuctionFrozen || event == CrossExecuted || event == AuctionAborted
  }

  /** The events that update an auction. */
  function Updates(auction: Value): DecodedLog -> bool
  {
    (l: DecodedLog) => IsUpdate(l.event) && l.Arg("auctionId") == auction
  }

  /** An auction opened and not yet updated. */
  predicate OpenedBy(row: Row, l: DecodedLog)
  {
    && From(row, l) && Says(row, AuctionId, l.Arg("auctionId")) && Says(row, Token, l.Arg("token"))
    && Says(row, Kind, l.Arg("kind")) && Says(row, CrossAt, l.Arg("crossAt"))
  }

  predicate StatusTold(row: Row, last: Option<DecodedLog>)
  {
    Says(row, Status, Text(
      match last
      case None => "open"
      case Some(l) =>
        if l.event == AuctionFrozen then "frozen" else if l.event == CrossExecuted then "crossed" else "aborted"))
  }

  predicate ExtensionTold(row: Row, last: Option<DecodedLog>)
  {
    match last
    case None => Says(row, Extensions, Number(0)) && CollarBps !in row
    case Some(l) => Says(row, Extensions, l.Arg("extensionCount")) && Says(row, CollarBps, l.Arg("newCollarBps"))
  }

  predicate FreezeTold(row: Row, last: Option<DecodedLog>)
  {
    match last
    case None => CommittedIntents !in row && EscrowedValue !in row
    case Some(l) =>
      Says(row, CommittedIntents, l.Arg("committedIntents")) && Says(row, EscrowedValue, l.Arg("escrowedValue"))
  }

  predicate CrossTold(row: Row, last: Option<DecodedLog>)
  {
    match last
    case None => Price !in row && Volume !in row && Participants !in row
    case Some(l) =>
      && Says(row, Price, l.Arg("price")) && Says(row, Volume, l.Arg("volume"))
      && Says(row, Participants, l.Arg("participants"))
  }

  predicate AbortTold(row: Row, last: Option<DecodedLog>)
  {
    match last case None => AbortReason !in row case Some(l) => Says(row, AbortReason, l.Arg("reason"))
  }

  /** Where the last event that touched the auction came from. */
  predicate TouchTold(row: Row, l: DecodedLog)
  {
    && Says(row, LastBlockNumber, Number(l.blockNumber)) && Says(row, LastTxHash, Number(l.txHash))
    && Says(row, LastLogIndex, Number(l.logIndex))
  }

  /** Everything the row says of the events after the opening one. */
  predicate LaterTold(row: Row, opening: DecodedLog, later: seq<DecodedLog>, auction: Value)
  {
    && StatusTold(row, Last(later, Decides(auction)))
    && ExtensionTold(row, Last(later, Is(AuctionExtended, auction)))
    && FreezeTold(row, Last(later, Is(AuctionFrozen, auction)))
    && CrossTold(row, Last(later, Is(CrossExecuted, auction)))
    && AbortTold(row, Last(later, Is(AuctionAborted, auction)))
    && TouchTold(row, match Last(later, Updates(auction)) case Some(l) => l case None => opening)
  }

  /** What an auction's row says: nothing before the first opening; after it the opening's own columns, and of every
      kind of update the last one. */
  predicate AuctionTold(logs: seq<DecodedLog>, auction: Value, row: Option<Row>)
  {
    match First(logs, Is(AuctionOpened, auction))
    case None => row.None?
    case Some(l) =>
      && row.Some? && OpenedBy(row.value, l)
      && LaterTold(row.value, l, After(logs, Is(AuctionOpened, auction)), auction)
  }

  // what one event does to an auction's row

  lemma AuctionOnly(l: DecodedLog)
    requires AuctionOps(l) != []
    ensures Project(l) == AuctionOps(l)
  {
    hide DecodedLog.Arg, AuctionOps;
    OneContract(l);
  }

  lemma OpenOp(l: DecodedLog)
    requires l.event == AuctionOpened
    ensures Project(l) == [Insert(Auctions, Record(l, OpenedFields(l)))]
  {
    hide DecodedLog.Arg, Record, OpenedFields, Project;
    AuctionOnly(l);
  }

  lemma OpenedRow(l: DecodedLog)
    ensures var row := Record(l, OpenedFields(l));
      && OpenedBy(row, l) && LaterTold(row, l, [], l.Arg("auctionId"))
      && KeyOf(Auctions, row) == AuctionKey(l.deployment, l.Arg("auctionId"))
  {
    hide DecodedLog.Arg, KeyOf, Record, OpenedFields, From, LaterTold;
    var row := Record(l, OpenedFields(l));
    RecordSays(l, OpenedFields(l));
    OpenedColumns(l);
    OpenedLacks(row);
    KeyOfAuction(l, row);
    NothingLater(row, l);
  }

  lemma OpenedLacks(row: Row)
    requires row.Keys == {AuctionId, Token, Kind, CrossAt, Status, Extensions, LastBlockNumber, LastTxHash,
      LastLogIndex} + Origin()
    ensures CollarBps !in row && CommittedIntents !in row && EscrowedValue !in row && Price !in row && Volume !in row
    ensures Participants !in row && AbortReason !in row
  {
  }

  lemma NothingLater(row: Row, l: DecodedLog)
    requires Says(row, Status, Text("open")) && Says(row, Extensions, Number(0)) && TouchTold(row, l)
    requires CollarBps !in row && CommittedIntents !in row && EscrowedValue !in row && Price !in row && Volume !in row
    requires Participants !in row && AbortReason !in row
    ensures LaterTold(row, l, [], l.Arg("auctionId"))
  {
    hide DecodedLog.Arg;
  }

  lemma OpenedColumns(l: DecodedLog)
    ensures var f := OpenedFields(l);
      && f[AuctionId] == l.Arg("auctionId") && f[Token] == l.Arg("token") && f[Kind] == l.Arg("kind")
      && f[CrossAt] == l.Arg("crossAt") && f[Status] == Text("open") && f[Extensions] == Number(0)
      && f[LastBlockNumber] == Number(l.blockNumber) && f[LastTxHash] == Number(l.txHash)
      && f[LastLogIndex] == Number(l.logIndex)
  {
    hide DecodedLog.Arg;
  }

  lemma KeyOfAuction(l: DecodedLog, row: Row)
    requires Says(row, Deployment, Number(l.deployment)) && AuctionId in row
    ensures KeyOf(Auctions, row) == AuctionKey(l.deployment, row[AuctionId])
  {
  }

  /** The columns one update sets. */
  predicate Sets(l: DecodedLog, fields: Row)
  {
    && TouchTold(fields, l)
    && match l.event
       case AuctionExtended =>
         && ExtensionTold(fields, Some(l))
         && fields.Keys == {Extensions, CollarBps} + {LastBlockNumber, LastTxHash, LastLogIndex}
       case AuctionFrozen =>
         && StatusTold(fields, Some(l)) && FreezeTold(fields, Some(l))
         && fields.Keys == {Status, CommittedIntents, EscrowedValue} + {LastBlockNumber, LastTxHash, LastLogIndex}
       case CrossExecuted =>
         && StatusTold(fields, Some(l)) && CrossTold(fields, Some(l))
         && fields.Keys == {Status, Price, Volume, Participants} + {LastBlockNumber, LastTxHash, LastLogIndex}
       case AuctionAborted =>
         && StatusTold(fields, Some(l)) && AbortTold(fields, Some(l))
         && fields.Keys == {Status, AbortReason} + {LastBlockNumber, LastTxHash, LastLogIndex}
       case _ => false
  }

  lemma UpdateOp(l: DecodedLog) returns (fields: Row)
    requires IsUpdate(l.event)
    ensures Project(l) == [Merge(Auctions, AuctionKey(l.deployment, l.Arg("auctionId")), fields)]
    ensures Sets(l, fields)
  {
    hide DecodedLog.Arg, Project, Sets, ExtendedFields, FrozenFields, CrossedFields, AbortedFields;
    fields := AuctionOps(l)[0].set_;
    AuctionOnly(l);
    ExtensionSets(l);
    FreezeSets(l);
    CrossSets(l);
    AbortSets(l);
  }

  lemma ExtensionSets(l: DecodedLog)
    ensures l.event == AuctionExtended ==> Sets(l, AuctionMerge(l, ExtendedFields(l)).set_)
  {
    hide DecodedLog.Arg;
  }

  lemma FreezeSets(l: DecodedLog)
    ensures l.event == AuctionFrozen ==> Sets(l, AuctionMerge(l, FrozenFields(l)).set_)
  {
    hide DecodedLog.Arg;
  }

  lemma CrossSets(l: DecodedLog)
    ensures l.event == CrossExecuted ==> Sets(l, AuctionMerge(l, CrossedFields(l)).set_)
  {
    hide DecodedLog.Arg;
  }

  lemma AbortSets(l: DecodedLog)
    ensures l.event == AuctionAborted ==> Sets(l, AuctionMerge(l, AbortedFields(l)).set_)
  {
    hide DecodedLog.Arg;
  }

  /** Which columns an update sets. */
  lemma SetsWhich(l: DecodedLog, fields: Row)
    requires Sets(l, fields)
    ensures IsUpdate(l.event) && TouchTold(fields, l)
    ensures if l.event == AuctionExtended then Status !in fields else StatusTold(fields, Some(l))
    ensures if l.event == AuctionExtended
      then ExtensionTold(fields, Some(l)) else Extensions !in fields && CollarBps !in fields
    ensures if l.event == AuctionFrozen
      then FreezeTold(fields, Some(l)) else CommittedIntents !in fields && EscrowedValue !in fields
    ensures if l.event == CrossExecuted
      then CrossTold(fields, Some(l)) else Price !in fields && Volume !in fields && Participants !in fields
    ensures if l.event == AuctionAborted then AbortTold(fields, Some(l)) else AbortReason !in fields
  {
    hide DecodedLog.Arg, TouchTold;
  }

  /** An update leaves the opening's own columns alone. */
  lemma SetsNone(l: DecodedLog, fields: Row, c: Column)
    requires Sets(l, fields) && c in {AuctionId, Token, Kind, CrossAt} + Origin()
    ensures c !in fields
  {
    hide DecodedLog.Arg, TouchTold, StatusTold, ExtensionTold, FreezeTold, CrossTold, AbortTold;
  }

  lemma StatusOver(row: Row, fields: Row, was: Option<DecodedLog>, now: Option<DecodedLog>)
    requires StatusTold(row, was)
    requires (now.Some? && StatusTold(fields, now)) || (now == was && Status !in fields)
    ensures StatusTold(row + fields, now)
  {
    hide DecodedLog.Arg;
  }

  lemma ExtensionOver(row: Row, fields: Row, was: Option<DecodedLog>, now: Option<DecodedLog>)
    requires ExtensionTold(row, was)
    requires (now.Some? && ExtensionTold(fields, now)) || (now == was && Extensions !in fields && CollarBps !in fields)
    ensures ExtensionTold(row + fields, now)
  {
    hide DecodedLog.Arg;
  }

  lemma FreezeOver(row: Row, fields: Row, was: Option<DecodedLog>, now: Option<DecodedLog>)
    requires FreezeTold(row, was)
    requires (now.Some? && FreezeTold(fields, now))
      || (now == was && CommittedIntents !in fields && EscrowedValue !in fields)
    ensures FreezeTold(row + fields, now)
  {
    hide DecodedLog.Arg;
  }

  lemma CrossOver(row: Row, fields: Row, was: Option<DecodedLog>, now: Option<DecodedLog>)
    requires CrossTold(row, was)
    requires (now.Some? && CrossTold(fields, now))
      || (now == was && Price !in fields && Volume !in fields && Participants !in fields)
    ensures CrossTold(row + fields, now)
  {
    hide DecodedLog.Arg;
  }

  lemma AbortOver(row: Row, fields: Row, was: Option<DecodedLog>, now: Option<DecodedLog>)
    requires AbortTold(row, was)
    requires (now.Some? && AbortTold(fields, now)) || (now == was && AbortReason !in fields)
    ensures AbortTold(row + fields, now)
  {
    hide DecodedLog.Arg;
  }

  lemma KindsOf(l: DecodedLog, auction: Value)
    ensures Updates(auction)(l) <==> IsUpdate(l.event) && l.Arg("auctionId") == auction
    ensures Decides(auction)(l) <==>
      IsUpdate(l.event) && l.event != AuctionExtended && l.Arg("auctionId") == auction
    ensures forall e :: Is(e, auction)(l) <==> l.event == e && l.Arg("auctionId") == auction
  {
    hide DecodedLog.Arg;
  }

  /** An update told over a row, whose other columns stay. */
  lemma UpdatedLater(row: Row, fields: Row, l: DecodedLog, opening: DecodedLog, later: seq<DecodedLog>, auction: Value)
    requires LaterTold(row, opening, later, auction)
    requires Sets(l, fields) && l.Arg("auctionId") == auction
    ensures LaterTold(row + fields, opening, later + [l], auction)
  {
    hide DecodedLog.Arg, Last, StatusTold, ExtensionTold, FreezeTold, CrossTold, AbortTold, Sets, Is, Decides, Updates,
      TouchTold;
    SetsWhich(l, fields);
    KindsOf(l, auction);
    OneMore(later, l, Decides(auction));
    StatusOver(row, fields, Last(later, Decides(auction)), Last(later + [l], Decides(auction)));
    OneMore(later, l, Is(AuctionExtended, auction));
    var extended := Is(AuctionExtended, auction);
    ExtensionOver(row, fields, Last(later, extended), Last(later + [l], extended));
    OneMore(later, l, Is(AuctionFrozen, auction));
    FreezeOver(row, fields, Last(later, Is(AuctionFrozen, auction)), Last(later + [l], Is(AuctionFrozen, auction)));
    OneMore(later, l, Is(CrossExecuted, auction));
    CrossOver(row, fields, Last(later, Is(CrossExecuted, auction)), Last(later + [l], Is(CrossExecuted, auction)));
    OneMore(later, l, Is(AuctionAborted, auction));
    AbortOver(row, fields, Last(later, Is(AuctionAborted, auction)), Last(later + [l], Is(AuctionAborted, auction)));
    OneMore(later, l, Updates(auction));
    TouchOver(row, fields, l);
  }

  lemma TouchOver(row: Row, fields: Row, l: DecodedLog)
    requires TouchTold(fields, l)
    ensures TouchTold(row + fields, l)
  {
  }

  /** Any other log leaves what was told. */
  lemma SameLater(row: Row, l: DecodedLog, opening: DecodedLog, later: seq<DecodedLog>, auction: Value)
    requires LaterTold(row, opening, later, auction) && !Updates(auction)(l)
    ensures LaterTold(row, opening, later + [l], auction)
  {
    hide DecodedLog.Arg, Last, StatusTold, ExtensionTold, FreezeTold, CrossTold, AbortTold, TouchTold, Is, Decides,
      Updates;
    KindsOf(l, auction);
    OneMore(later, l, Decides(auction));
    OneMore(later, l, Is(AuctionExtended, auction));
    OneMore(later, l, Is(AuctionFrozen, auction));
    OneMore(later, l, Is(CrossExecuted, auction));
    OneMore(later, l, Is(AuctionAborted, auction));
    OneMore(later, l, Updates(auction));
  }

  lemma OpenedOver(row: Row, fields: Row, l: DecodedLog, opening: DecodedLog)
    requires OpenedBy(row, opening) && Sets(l, fields)
    ensures OpenedBy(row + fields, opening)
  {
    forall c | c in {AuctionId, Token, Kind, CrossAt} + Origin() ensures c !in fields {
      SetsNone(l, fields, c);
    }
    hide DecodedLog.Arg, Sets;
  }

  lemma SameAuction(deployment: nat, a: Value, b: Value)
    ensures AuctionKey(deployment, a) == AuctionKey(deployment, b) <==> a == b
  {
    assert AuctionKey(deployment, a)[AuctionId] == a && AuctionKey(deployment, b)[AuctionId] == b;
  }

  /** A row of one auction of the deployment is matched by that auction's key and no other's. */
  lemma MatchesOwn(row: Row, l: DecodedLog, opening: DecodedLog)
    requires OpenedBy(row, opening) && opening.deployment == l.deployment
    ensures Matches(row, AuctionKey(l.deployment, l.Arg("auctionId"))) <==>
      opening.Arg("auctionId") == l.Arg("auctionId")
  {
    hide DecodedLog.Arg;
    var key := AuctionKey(l.deployment, l.Arg("auctionId"));
    assert key[AuctionId] == l.Arg("auctionId") && key[Deployment] == Number(l.deployment);
  }

  /** What one log makes of the row of an auction not opened yet. */
  lemma OpeningStep(init: seq<DecodedLog>, l: DecodedLog, auction: Value)
    requires First(init, Is(AuctionOpened, auction)).None?
    ensures AuctionTold(init + [l], auction, Changed(None, Project(l), Auctions, AuctionKey(l.deployment, auction)))
  {
    hide DecodedLog.Arg, First, After, OpenedBy, LaterTold, Project, Record, KeyOf, Matches, AuctionKey, Sets, Is,
      Decides, Updates, OpenedFields, AuctionOps;
    KindsOf(l, auction);
    OneMore(init, l, Is(AuctionOpened, auction));
    SameAuction(l.deployment, auction, l.Arg("auctionId"));
    if l.event == AuctionOpened {
      OpenOp(l);
      OpenedRow(l);
    } else {
      NotOpened(l, auction);
    }
  }

  /** No other event makes a row of an auction not opened yet. */
  lemma NotOpened(l: DecodedLog, auction: Value)
    requires l.event != AuctionOpened
    ensures Changed(None, Project(l), Auctions, AuctionKey(l.deployment, auction)).None?
  {
    hide DecodedLog.Arg, Project, KeyOf, Matches, AuctionKey, Sets;
    if IsUpdate(l.event) {
      var fields := UpdateOp(l);
    } else {
      OwnTable(l);
    }
  }

  /** What one log makes of the row of an open auction. */
  lemma LaterStep(row: Row, l: DecodedLog, opening: DecodedLog, later: seq<DecodedLog>, auction: Value)
    requires OpenedBy(row, opening) && LaterTold(row, opening, later, auction)
    requires opening.deployment == l.deployment && opening.Arg("auctionId") == auction
    ensures var after := Changed(Some(row), Project(l), Auctions, AuctionKey(l.deployment, auction));
      after.Some? && OpenedBy(after.value, opening) && LaterTold(after.value, opening, later + [l], auction)
  {
    hide DecodedLog.Arg, First, After, OpenedBy, LaterTold, Project, Record, KeyOf, Matches, AuctionKey, Sets, Is,
      Decides, Updates, OpenedFields, AuctionOps;
    KindsOf(l, auction);
    if IsUpdate(l.event) {
      var fields := UpdateOp(l);
      MatchesOwn(row, l, opening);
      if l.Arg("auctionId") == auction {
        UpdatedLater(row, fields, l, opening, later, auction);
        OpenedOver(row, fields, l, opening);
      } else {
        SameLater(row, l, opening, later, auction);
      }
    } else {
      SameLater(row, l, opening, later, auction);
      NotUpdated(row, l, auction);
    }
  }

  /** An event that does not update auctions leaves the row of an open one. */
  lemma NotUpdated(row: Row, l: DecodedLog, auction: Value)
    requires !IsUpdate(l.event)
    ensures Changed(Some(row), Project(l), Auctions, AuctionKey(l.deployment, auction)) == Some(row)
  {
    hide DecodedLog.Arg, Project, KeyOf, Matches, AuctionKey, OpenedFields, Record, Changed;
    if l.event == AuctionOpened {
      OpenOp(l);
      InsertOver(row, Record(l, OpenedFields(l)), AuctionKey(l.deployment, auction));
    } else {
      OwnTable(l);
      ElsewhereOver(row, Project(l), AuctionKey(l.deployment, auction));
    }
  }

  lemma InsertOver(row: Row, inserted: Row, key: Row)
    ensures Changed(Some(row), [Insert(Auctions, inserted)], Auctions, key) == Some(row)
  {
  }

  lemma ElsewhereOver(row: Row, ops: seq<Op>, key: Row)
    requires ops == [] || ops[0].table != Auctions
    ensures Changed(Some(row), ops, Auctions, key) == Some(row)
  {
  }

  /** What one log makes of an auction's row keeps it told. */
  lemma AuctionToldStep(init: seq<DecodedLog>, l: DecodedLog, auction: Value, row: Option<Row>)
    requires Owned(init, l.deployment) && AuctionTold(init, auction, row)
    ensures AuctionTold(init + [l], auction, Changed(row, Project(l), Auctions, AuctionKey(l.deployment, auction)))
  {
    hide DecodedLog.Arg, First, After, OpenedBy, LaterTold, Project, Changed, AuctionKey, Is;
    OneMore(init, l, Is(AuctionOpened, auction));
    var opening := First(init, Is(AuctionOpened, auction));
    if opening.Some? {
      KindsOf(opening.value, auction);
      LaterStep(row.value, l, opening.value, After(init, Is(AuctionOpened, auction)), auction);
    } else {
      OpeningStep(init, l, auction);
    }
  }

  /** Over every list of logs of a deployment, every auction's row says what the logs say of that auction. */
  lemma {:induction false} AuctionRows(logs: seq<DecodedLog>, deployment: nat, auction: Value)
    requires Owned(logs, deployment)
    ensures AuctionTold(logs, auction, RowOf(Folded(logs), Auctions, AuctionKey(deployment, auction)))
  {
    var key := AuctionKey(deployment, auction);
    hide Folded, RowOf, Changed, Project, DecodedLog.Arg, Owned, OpenedBy, LaterTold;
    if logs == [] {
      FoldedStart(Auctions, key);
    } else {
      var init, l := logs[..|logs| - 1], logs[|logs| - 1];
      assert logs == init + [l];
      FoldedStep(logs, deployment, Auctions, key);
      AuctionRows(init, deployment, auction);
      hide AuctionTold;
      AuctionToldStep(init, l, auction, RowOf(Folded(init), Auctions, key));
    }
  }
}
