/** What the indexer's tables say after any run (indexer/src/ingest.ts, indexer/src/project.ts). */
module CanonicalRows {
  import opened Common
  import opened Projection
  import opened Store
  import opened Replay
  import opened Ingest
  import opened Canonical
  import opened Reorg
  import opened Rows
  import opened RowsInserted

  /** A closing log of a transaction that finalizes this batch. */
  function Finalizes(site: Site, batch: Value): DecodedLog -> bool
  {
    (l: DecodedLog) =>
      (l.event == BatchSettled || l.event == BatchPassthrough)
        && site.finalize(l.txHash).Some? && site.finalize(l.txHash).value.batchId == batch
  }

  /** What a batch's winning solution says: the calldata of the first transaction that finalized the batch. */
  predicate WinnerTold(site: Site, logs: seq<DecodedLog>, batch: Value, row: Option<Row>)
  {
    match First(logs, Finalizes(site, batch))
    case None => row.None?
    case Some(l) =>
      && row.Some? && From(row.value, l) && Says(row.value, BatchId, batch)
      && site.finalize(l.txHash).Some?
      && Says(row.value, SolutionHash, site.finalize(l.txHash).value.solutionHash)
      && Says(row.value, SolutionJson, site.finalize(l.txHash).value.solution)
  }

  lemma WinnerRow(site: Site, l: DecodedLog)
    requires l.deployment == site.settlement && Closing(l) && site.finalize(l.txHash).Some?
    ensures var call := site.finalize(l.txHash).value;
      var row := SolutionRow(l, call);
      && From(row, l) && Says(row, BatchId, call.batchId)
      && Says(row, SolutionHash, call.solutionHash) && Says(row, SolutionJson, call.solution)
      && KeyOf(BatchSolutions, row) == BatchKey(site.settlement, call.batchId)
      && Keys(BatchSolutions) + {Deployment} <= row.Keys
  {
    SolutionRowFits(site, l, site.finalize(l.txHash).value);
  }

  lemma {:induction false} WinnerRows(site: Site, logs: seq<DecodedLog>, batch: Value)
    requires Owned(logs, site.settlement)
    ensures RowsOk(BatchSolutions, SolutionRows([], SolutionOps(site, logs)), site.settlement)
    ensures WinnerTold(site, logs, batch,
      Lookup(SolutionRows([], SolutionOps(site, logs)), BatchKey(site.settlement, batch)))
  {
    var key := BatchKey(site.settlement, batch);
    hide RowsOk, Lookup, SolutionRow, KeyOf, From, ApplyTo, BatchKey, FindRow, Finalizes, WinnerTold;
    if logs == [] {
      NoWinner(site, batch);
    } else {
      var init, l := logs[..|logs| - 1], logs[|logs| - 1];
      assert logs == init + [l];
      WinnerRows(site, init, batch);
      var rows, ops := SolutionRows([], SolutionOps(site, init)), SolutionOps(site, logs);
      WinnerStep(site, init, l, rows, batch);
      if Closing(l) && site.finalize(l.txHash).Some? {
        assert ops[..|ops| - 1] == SolutionOps(site, init);
      }
    }
  }

  lemma NoWinner(site: Site, batch: Value)
    ensures RowsOk(BatchSolutions, [], site.settlement)
    ensures WinnerTold(site, [], batch, Lookup([], BatchKey(site.settlement, batch)))
  {
  }

  /** What one log makes of the rows. */
  function Next(site: Site, rows: seq<Row>, l: DecodedLog): seq<Row>
  {
    if Closing(l) && site.finalize(l.txHash).Some?
    then ApplyTo(rows, Insert(BatchSolutions, SolutionRow(l, site.finalize(l.txHash).value)))
    else rows
  }

  lemma WinnerStep(site: Site, init: seq<DecodedLog>, l: DecodedLog, rows: seq<Row>, batch: Value)
    requires l.deployment == site.settlement && RowsOk(BatchSolutions, rows, site.settlement)
    requires WinnerTold(site, init, batch, Lookup(rows, BatchKey(site.settlement, batch)))
    ensures RowsOk(BatchSolutions, Next(site, rows, l), site.settlement)
    ensures WinnerTold(site, init + [l], batch, Lookup(Next(site, rows, l), BatchKey(site.settlement, batch)))
  {
    var key := BatchKey(site.settlement, batch);
    hide RowsOk, Lookup, SolutionRow, KeyOf, From, ApplyTo, FindRow, First;
    OneMore(init, l, Finalizes(site, batch));
    if Closing(l) && site.finalize(l.txHash).Some? {
      var call := site.finalize(l.txHash).value;
      var row := SolutionRow(l, call);
      WinnerRow(site, l);
      SameBatch(site.settlement, batch, call.batchId);
      InsertKeeps(BatchSolutions, rows, Insert(BatchSolutions, row), site.settlement);
      LookupInsert(BatchSolutions, rows, row, site.settlement, key);
    }
  }

  /** The main result on indexing, row by row. Over every run of steps, with the chain rewritten at will between them
      and reads that fail, whenever a step succeeds every table says of every batch, auction, solution and log what the
      canonical chain's logs up to the checkpoint say of it. */
  lemma CanonicalRows(site: Site, ws: seq<Conditions>, value: Value, t: Table, key: Row)
    requires site.fromBlock > 0 && Lawful(ws) && ws != []
    requires Step(Run(site, ws[..|ws| - 1]), site, ws[|ws| - 1]).result.Ok?
    requires InsertOnly(t) && key.Keys == Keys(t)
    ensures var c, chain := Run(site, ws).contents, ws[|ws| - 1].chain;
      && Height(c) <= |chain| && c.logs == LogsBetween(site, chain, site.fromBlock, Height(c))
      && BatchTold(c.logs, value, RowOf(c.tables, Batches, BatchKey(site.settlement, value)))
      && AuctionTold(c.logs, value, RowOf(c.tables, Auctions, AuctionKey(site.settlement, value)))
      && SolutionTold(c.logs, key, RowOf(c.tables, Solutions, key))
      && InsertedTold(c.logs, t, key, RowOf(c.tables, t, key))
      && WinnerTold(site, c.logs, value, RowOf(c.tables, BatchSolutions, BatchKey(site.settlement, value)))
  {
    hide Tracks, Step, Run, Lawful, LogsBetween, Owned, BatchTold, AuctionTold, SolutionTold, InsertedTold, WinnerTold,
      ProjectAll, SolutionRows, SolutionOps, TablesOk, RowOf;
    CanonicalTables(site, ws);
    var c := Run(site, ws).contents;
    RangeOwned(site, ws[|ws| - 1].chain, site.fromBlock, Height(c));
    BatchRows(c.logs, site.settlement, value);
    AuctionRows(c.logs, site.settlement, value);
    SolutionRowsTold(c.logs, site.settlement, key);
    InsertedRows(c.logs, site.settlement, t, key);
    WinnerRows(site, c.logs, value);
    SameRows(c.tables, Folded(c.logs), SolutionRows([], SolutionOps(site, c.logs)));
  }

  /** Replacing the winning solutions leaves every other table's rows. */
  lemma SameRows(ts: Tables, folded: Tables, winners: seq<Row>)
    requires ts == folded[BatchSolutions := winners]
    ensures forall t, key :: t != BatchSolutions ==> RowOf(ts, t, key) == RowOf(folded, t, key)
    ensures forall key :: RowOf(ts, BatchSolutions, key) == Lookup(winners, key)
  {
    hide Lookup;
  }
}
