/** The indexer's tables are the fold over the canonical chain, whatever reorgs happen between its steps. */
module Canonical {
  import opened Common
  import opened Sorting
  import opened Projection
  import opened Store
  import opened Replay
  import opened Ingest

  // ----- what a chain is

  /** Logs of a block come in index order, and no log occurs twice in a history. */
  ghost predicate ChainOk(chain: Chain)
  {
    && (forall n :: 0 <= n < |chain| ==> IndicesRise(chain[n].logs))
    && (forall m, n, i, j :: 0 <= m < n < |chain| && 0 <= i < |chain[m].logs| && 0 <= j < |chain[n].logs| ==>
          chain[m].logs[i].txHash != chain[n].logs[j].txHash)
  }

  /** A block hash names the whole history below it. */
  ghost predicate HashesBind(a: Chain, b: Chain)
  {
    forall n :: 0 <= n < |a| && n < |b| && a[n].hash == b[n].hash ==> a[..n + 1] == b[..n + 1]
  }

  lemma PrefixOk(chain: Chain, n: nat)
    requires ChainOk(chain) && n <= |chain|
    ensures ChainOk(chain[..n])
  {
  }

  // ----- the logs of a range

  /** A decoded log of a block comes from one of its logs. */
  predicate CameFrom(l: DecodedLog, ls: seq<ChainLog>)
  {
    exists x :: x in ls && x.txHash == l.txHash && x.logIndex == l.logIndex
  }

  lemma {:induction false} BlockLogsFrom(site: Site, b: Block, n: nat, ls: seq<ChainLog>)
    ensures forall l :: l in BlockLogs(site, b, n, ls) ==>
      l.deployment == site.settlement && l.blockNumber == n && l.chainId == site.chainId && CameFrom(l, ls)
  {
    if ls != [] {
      var init, last := ls[..|ls| - 1], ls[|ls| - 1];
      BlockLogsFrom(site, b, n, init);
      forall l | l in BlockLogs(site, b, n, ls)
        ensures l.deployment == site.settlement && l.blockNumber == n && l.chainId == site.chainId && CameFrom(l, ls)
      {
        if l in BlockLogs(site, b, n, init) {
          var x :| x in init && x.txHash == l.txHash && x.logIndex == l.logIndex;
          assert x in ls;
        } else {
          assert last in ls;
        }
      }
    }
  }

  ghost predicate IndicesRise(ls: seq<ChainLog>)
  {
    forall i, j :: 0 <= i < j < |ls| ==> ls[i].logIndex < ls[j].logIndex
  }

  ghost predicate LogsRise(logs: seq<DecodedLog>)
  {
    forall i, j :: 0 <= i < j < |logs| ==> logs[i].logIndex < logs[j].logIndex
  }

  lemma {:induction false} BlockLogsRise(site: Site, b: Block, n: nat, ls: seq<ChainLog>)
    requires IndicesRise(ls)
    ensures LogsRise(BlockLogs(site, b, n, ls))
  {
    if ls != [] {
      var init, last := ls[..|ls| - 1], ls[|ls| - 1];
      BlockLogsRise(site, b, n, init);
      BlockLogsFrom(site, b, n, init);
      var before := BlockLogs(site, b, n, init);
      forall l | l in before ensures l.logIndex < last.logIndex {
        var x :| x in init && x.txHash == l.txHash && x.logIndex == l.logIndex;
        var k :| 0 <= k < |init| && init[k] == x;
        assert ls[k].logIndex < ls[|ls| - 1].logIndex;
      }
      if DecodedOf(site, b, n, last).Some? {
        OneMoreRises(before, DecodedOf(site, b, n, last).value);
      }
    }
  }

  lemma OneMoreRises(logs: seq<DecodedLog>, l: DecodedLog)
    requires LogsRise(logs) && forall x :: x in logs ==> x.logIndex < l.logIndex
    ensures LogsRise(logs + [l])
  {
    forall i, j | 0 <= i < j < |logs + [l]| ensures (logs + [l])[i].logIndex < (logs + [l])[j].logIndex {
      assert logs[i] in logs;
    }
  }

  /** Logs of one block with rising indices are in order, and no two are the same. */
  lemma OneBlockInOrder(logs: seq<DecodedLog>, n: nat)
    requires LogsRise(logs) && forall l :: l in logs ==> l.blockNumber == n
    ensures Sorted(logs, InOrder()) && NoRepeats(logs)
  {
    forall i, j | 0 <= i < j < |logs| ensures InOrder()(logs[i], logs[j]) && !SameLog(logs[i], logs[j]) {
      assert logs[i] in logs && logs[j] in logs;
    }
  }

  /** Where a decoded log of a range comes from. */
  lemma {:induction false} LogFrom(site: Site, chain: Chain, a: nat, b: nat, l: DecodedLog)
    requires b <= |chain| && l in LogsBetween(site, chain, a, b)
    ensures a <= l.blockNumber < b && l.deployment == site.settlement && l.chainId == site.chainId
    ensures CameFrom(l, chain[l.blockNumber].logs)
    ensures l in BlockLogs(site, chain[l.blockNumber], l.blockNumber, chain[l.blockNumber].logs)
  {
    var last := BlockLogs(site, chain[b - 1], b - 1, chain[b - 1].logs);
    if l in last {
      BlockLogsFrom(site, chain[b - 1], b - 1, chain[b - 1].logs);
    } else {
      LogFrom(site, chain, a, b - 1, l);
    }
  }

  /** A range's logs come in order, none of them twice. */
  lemma {:induction false} LogsInOrder(site: Site, chain: Chain, a: nat, b: nat)
    requires b <= |chain| && ChainOk(chain)
    ensures Sorted(LogsBetween(site, chain, a, b), InOrder())
    ensures NoRepeats(LogsBetween(site, chain, a, b))
  {
    hide BlockLogs, CameFrom, Sorted, NoRepeats;
    if b <= a {
      OneBlockInOrder([], 0);
    } else {
      LogsInOrder(site, chain, a, b - 1);
      var before, last := LogsBetween(site, chain, a, b - 1), BlockLogs(site, chain[b - 1], b - 1, chain[b - 1].logs);
      BlockLogsFrom(site, chain[b - 1], b - 1, chain[b - 1].logs);
      BlockLogsRise(site, chain[b - 1], b - 1, chain[b - 1].logs);
      forall x, y | x in before && y in last ensures InOrder()(x, y) && !SameLog(x, y) {
        LogFrom(site, chain, a, b - 1, x);
        AcrossBlocks(chain, x, y, b - 1);
      }
      OneBlockInOrder(last, b - 1);
      hide BlockLogs, ChainOk, IndicesRise, CameFrom, Sorted, NoRepeats;
      Joined(before, last);
    }
  }

  lemma AcrossBlocks(chain: Chain, x: DecodedLog, y: DecodedLog, n: nat)
    requires ChainOk(chain) && n < |chain| && x.blockNumber < n == y.blockNumber
    requires CameFrom(x, chain[x.blockNumber].logs) && CameFrom(y, chain[n].logs)
    ensures InOrder()(x, y) && !SameLog(x, y)
  {
    var p :| p in chain[x.blockNumber].logs && p.txHash == x.txHash && p.logIndex == x.logIndex;
    var q :| q in chain[n].logs && q.txHash == y.txHash && q.logIndex == y.logIndex;
    var i :| 0 <= i < |chain[x.blockNumber].logs| && chain[x.blockNumber].logs[i] == p;
    var j :| 0 <= j < |chain[n].logs| && chain[n].logs[j] == q;
  }

  lemma Joined(xs: seq<DecodedLog>, ys: seq<DecodedLog>)
    requires Sorted(xs, InOrder()) && NoRepeats(xs)
    requires Sorted(ys, InOrder()) && NoRepeats(ys)
    requires forall x, y :: x in xs && y in ys ==> InOrder()(x, y) && !SameLog(x, y)
    ensures Sorted(xs + ys, InOrder()) && NoRepeats(xs + ys)
  {
    forall i, j | 0 <= i < j < |xs + ys|
      ensures InOrder()((xs + ys)[i], (xs + ys)[j]) && !SameLog((xs + ys)[i], (xs + ys)[j]) {
      if j < |xs| {
        assert (xs + ys)[i] == xs[i] && (xs + ys)[j] == xs[j];
      } else if i >= |xs| {
        assert (xs + ys)[i] == ys[i - |xs|] && (xs + ys)[j] == ys[j - |xs|];
      } else {
        assert (xs + ys)[i] == xs[i] && (xs + ys)[j] == ys[j - |xs|];
        assert xs[i] in xs && ys[j - |xs|] in ys;
      }
    }
  }

  lemma {:induction false} LogsSplit(site: Site, chain: Chain, a: nat, m: nat, b: nat)
    requires a <= m <= b <= |chain|
    ensures LogsBetween(site, chain, a, b) == LogsBetween(site, chain, a, m) + LogsBetween(site, chain, m, b)
    ensures UndecodedBetween(site, chain, a, b) == UndecodedBetween(site, chain, a, m) +
      UndecodedBetween(site, chain, m, b)
  {
    if m < b {
      LogsSplit(site, chain, a, m, b - 1);
    }
  }

  /** Ranges below a common height are the same on both histories. */
  lemma {:induction false} SamePrefixLogs(site: Site, x: Chain, y: Chain, a: nat, b: nat)
    requires b <= |x| && b <= |y| && x[..b] == y[..b]
    ensures LogsBetween(site, x, a, b) == LogsBetween(site, y, a, b)
    ensures UndecodedBetween(site, x, a, b) == UndecodedBetween(site, y, a, b)
  {
    if b > a {
      assert x[b - 1] == x[..b][b - 1] == y[..b][b - 1] == y[b - 1];
      assert x[..b - 1] == x[..b][..b - 1] == y[..b][..b - 1] == y[..b - 1];
      SamePrefixLogs(site, x, y, a, b - 1);
    }
  }

  /** Dropping the logs above a block leaves the range up to it. */
  lemma {:induction false} LogsRewind(site: Site, chain: Chain, a: nat, b: nat, n: nat)
    requires b <= |chain|
    ensures Filter(LogsBetween(site, chain, a, b), LogUpTo(n)) ==
      LogsBetween(site, chain, a, if n + 1 < b then n + 1 else b)
  {
    hide Filter, BlockLogs, CameFrom;
    if b <= n + 1 {
      AllUpTo(site, chain, a, b, n);
    } else if b <= a {
      NothingFiltered(LogUpTo(n));
    } else {
      LogsRewind(site, chain, a, b - 1, n);
      LastDropped(site, chain, a, b, n);
      RangeShrinks(site, chain, a, b - 1, n);
    }
  }

  lemma AllUpTo(site: Site, chain: Chain, a: nat, b: nat, n: nat)
    requires b <= |chain| && b <= n + 1
    ensures Filter(LogsBetween(site, chain, a, b), LogUpTo(n)) == LogsBetween(site, chain, a, b)
  {
    hide Filter, LogsBetween, BlockLogs, CameFrom;
    forall l | l in LogsBetween(site, chain, a, b) ensures LogUpTo(n)(l) {
      LogFrom(site, chain, a, b, l);
    }
    FilterAll(LogsBetween(site, chain, a, b), LogUpTo(n));
  }

  lemma LastDropped(site: Site, chain: Chain, a: nat, b: nat, n: nat)
    requires a < b <= |chain| && n + 1 < b
    ensures Filter(LogsBetween(site, chain, a, b), LogUpTo(n)) == Filter(LogsBetween(site, chain, a, b - 1), LogUpTo(n))
  {
    hide Filter, BlockLogs, CameFrom;
    var before, last := LogsBetween(site, chain, a, b - 1), BlockLogs(site, chain[b - 1], b - 1, chain[b - 1].logs);
    BlockLogsFrom(site, chain[b - 1], b - 1, chain[b - 1].logs);
    FilterNone(last, LogUpTo(n));
    FilterAppend(before, last, LogUpTo(n));
    assert Filter(before, LogUpTo(n)) + [] == Filter(before, LogUpTo(n));
  }

  lemma NothingFiltered<T>(p: T -> bool)
    ensures Filter([], p) == []
  {
  }

  lemma RangeShrinks(site: Site, chain: Chain, a: nat, b: nat, n: nat)
    requires b < |chain| && b >= n + 1
    ensures LogsBetween(site, chain, a, if n + 1 < b then n + 1 else b) == LogsBetween(site, chain, a, n + 1)
  {
  }

  // ----- batch_solutions as a function of the logs

  /** One insert per closing log of a finalize, without the per-transaction skip. */
  function SolutionOps(site: Site, logs: seq<DecodedLog>): seq<Op>
  {
    if logs == [] then []
    else
      var rest, l := SolutionOps(site, logs[..|logs| - 1]), logs[|logs| - 1];
      if Closing(l) && site.finalize(l.txHash).Some?
      then rest + [Insert(BatchSolutions, SolutionRow(l, site.finalize(l.txHash).value))]
      else rest
  }

  lemma SolutionRowFits(site: Site, l: DecodedLog, call: FinalizeCall)
    requires l.deployment == site.settlement
    ensures SolutionInsert(Insert(BatchSolutions, SolutionRow(l, call)), site.settlement)
    ensures SolutionBlock(Insert(BatchSolutions, SolutionRow(l, call))) == l.blockNumber
    ensures forall n: nat :: OpUpTo(n)(Insert(BatchSolutions, SolutionRow(l, call))) <==> l.blockNumber <= n
    ensures KeyOf(BatchSolutions, SolutionRow(l, call)) ==
      map[Deployment := Number(site.settlement), BatchId := call.batchId]
  {
  }

  lemma {:induction false} SolutionOpsFit(site: Site, logs: seq<DecodedLog>)
    requires Owned(logs, site.settlement)
    ensures SolutionInserts(SolutionOps(site, logs), site.settlement)
    ensures forall op :: op in SolutionOps(site, logs) ==> exists l :: l in logs && SolutionBlock(op) == l.blockNumber
  {
    if logs != [] {
      var init, l := logs[..|logs| - 1], logs[|logs| - 1];
      SolutionOpsFit(site, init);
      if Closing(l) && site.finalize(l.txHash).Some? {
        SolutionRowFits(site, l, site.finalize(l.txHash).value);
      }
      hide SolutionInsert, SolutionBlock, SolutionRow;
      forall op | op in SolutionOps(site, logs) ensures exists l :: l in logs && SolutionBlock(op) == l.blockNumber {
        if op in SolutionOps(site, init) {
          var x :| x in init && SolutionBlock(op) == x.blockNumber;
          assert x in logs;
        } else {
          assert l in logs;
        }
      }
    }
  }

  lemma {:induction false} SolutionOpsInOrder(site: Site, logs: seq<DecodedLog>)
    requires Owned(logs, site.settlement) && Sorted(logs, InOrder())
    ensures SolutionInserts(SolutionOps(site, logs), site.settlement)
      && OpsInOrder(SolutionOps(site, logs), site.settlement)
  {
    SolutionOpsFit(site, logs);
    if logs != [] {
      var init, l := logs[..|logs| - 1], logs[|logs| - 1];
      SolutionOpsInOrder(site, init);
      SolutionOpsFit(site, init);
      var before, after := SolutionOps(site, init), SolutionOps(site, logs);
      if Closing(l) && site.finalize(l.txHash).Some? {
        SolutionRowFits(site, l, site.finalize(l.txHash).value);
        hide SolutionBlock, SolutionInsert, SolutionRow;
        forall op | op in before ensures SolutionBlock(op) <= l.blockNumber {
          var x :| x in init && SolutionBlock(op) == x.blockNumber;
          var k :| 0 <= k < |init| && init[k] == x;
          assert InOrder()(logs[k], logs[|logs| - 1]);
        }
      }
    }
  }

  lemma {:induction false} SolutionOpsJoin(site: Site, xs: seq<DecodedLog>, ys: seq<DecodedLog>)
    ensures SolutionOps(site, xs + ys) == SolutionOps(site, xs) + SolutionOps(site, ys)
  {
    hide SolutionRow;
    if ys == [] {
      assert xs + ys == xs;
    } else {
      assert (xs + ys)[..|xs + ys| - 1] == xs + ys[..|ys| - 1];
      SolutionOpsJoin(site, xs, ys[..|ys| - 1]);
    }
  }

  lemma {:induction false} SolutionOpsFilter(site: Site, logs: seq<DecodedLog>, n: nat)
    requires Owned(logs, site.settlement)
    ensures Filter(SolutionOps(site, logs), OpUpTo(n)) == SolutionOps(site, Filter(logs, LogUpTo(n)))
  {
    hide SolutionRow, OpUpTo, Filter, SolutionInsert, KeyOf;
    if logs == [] {
      NothingFiltered(OpUpTo(n));
      NothingFiltered(LogUpTo(n));
    } else {
      var init, l := logs[..|logs| - 1], logs[|logs| - 1];
      SolutionOpsFilter(site, init, n);
      if Closing(l) && site.finalize(l.txHash).Some? {
        SolutionRowFits(site, l, site.finalize(l.txHash).value);
        FilterLast(SolutionOps(site, init), Insert(BatchSolutions, SolutionRow(l, site.finalize(l.txHash).value)),
          OpUpTo(n));
      }
      FilterLast(init, l, LogUpTo(n));
      assert init + [l] == logs;
      var kept := Filter(init, LogUpTo(n));
      assert (kept + [l])[..|kept|] == kept;
    }
  }

  lemma FilterLast<T>(xs: seq<T>, x: T, p: T -> bool)
    ensures Filter(xs + [x], p) == if p(x) then Filter(xs, p) + [x] else Filter(xs, p)
  {
    assert (xs + [x])[..|xs|] == xs;
  }

  /** Each finalizing transaction seen so far already has its row. */
  ghost predicate SeenStored(site: Site, seen: set<nat>, rows: seq<Row>)
  {
    forall tx :: tx in seen && site.finalize(tx).Some? ==>
      FindRow(rows, map[Deployment := Number(site.settlement), BatchId := site.finalize(tx).value.batchId]).Some?
  }

  /** Skipping a transaction already seen does not show in the table: its row is there already. */
  lemma {:induction false} SkipDoesNotShow(site: Site, logs: seq<DecodedLog>, rows: seq<Row>)
    requires Owned(logs, site.settlement)
    ensures SolutionInserts(WinningSolutions(site, logs).ops, site.settlement)
    ensures SolutionRows(rows, WinningSolutions(site, logs).ops) == SolutionRows(rows, SolutionOps(site, logs))
    ensures SeenStored(site, WinningSolutions(site, logs).seen, SolutionRows(rows, SolutionOps(site, logs)))
  {
    hide SolutionRow, KeyOf, FindRow, ApplyTo, Closing, SolutionInsert, SolutionRows, SeenStored;
    if logs == [] {
      NothingSeen(site, SolutionRows(rows, []));
    } else {
      var init, l := logs[..|logs| - 1], logs[|logs| - 1];
      SkipDoesNotShow(site, init, rows);
      var seen, before := WinningSolutions(site, init).seen, SolutionRows(rows, SolutionOps(site, init));
      if Closing(l) && site.finalize(l.txHash).Some? {
        var call := site.finalize(l.txHash).value;
        var op := Insert(BatchSolutions, SolutionRow(l, call));
        SolutionRowFits(site, l, call);
        OneMoreRow(before, SolutionRow(l, call), site.settlement);
        RowsStep(rows, SolutionOps(site, init), op);
        RowsStep(rows, WinningSolutions(site, init).ops, op);
        if l.txHash in seen { SeenHolds(site, seen, before, l.txHash); }
        SeenGrows(site, seen, before, ApplyTo(before, op), l.txHash);
      } else if site.finalize(l.txHash).None? {
        SeenGrows(site, seen, before, before, l.txHash);
      }
    }
  }

  lemma NothingSeen(site: Site, rows: seq<Row>)
    ensures SeenStored(site, {}, rows)
  {
  }

  lemma RowsStep(rows: seq<Row>, ops: seq<Op>, op: Op)
    ensures SolutionRows(rows, ops + [op]) == ApplyTo(SolutionRows(rows, ops), op)
  {
    hide ApplyTo;
    assert (ops + [op])[..|ops|] == ops;
  }

  lemma SeenHolds(site: Site, seen: set<nat>, rows: seq<Row>, tx: nat)
    requires SeenStored(site, seen, rows) && tx in seen && site.finalize(tx).Some?
    ensures FindRow(rows, map[Deployment := Number(site.settlement), BatchId := site.finalize(tx).value.batchId]).Some?
  {
  }

  lemma SeenGrows(site: Site, seen: set<nat>, before: seq<Row>, after: seq<Row>, tx: nat)
    requires SeenStored(site, seen, before)
    requires forall key: Row :: FindRow(before, key).Some? ==> FindRow(after, key).Some?
    requires site.finalize(tx).Some? ==>
      FindRow(after, map[Deployment := Number(site.settlement), BatchId := site.finalize(tx).value.batchId]).Some?
    ensures SeenStored(site, seen + {tx}, after)
  {
    hide FindRow;
  }

  lemma OneMoreRow(rows: seq<Row>, row: Row, settlement: nat)
    requires SolutionInsert(Insert(BatchSolutions, row), settlement)
    ensures var after := ApplyTo(rows, Insert(BatchSolutions, row));
      && rows <= after
      && FindRow(after, KeyOf(BatchSolutions, row)).Some?
      && (FindRow(rows, KeyOf(BatchSolutions, row)).Some? ==> after == rows)
      && forall key: Row :: FindRow(rows, key).Some? ==> FindRow(after, key).Some?
  {
    var after := ApplyTo(rows, Insert(BatchSolutions, row));
    MatchIsSameKey(BatchSolutions, row, row);
    hide KeyOf, Matches;
    if FindRow(rows, KeyOf(BatchSolutions, row)).None? {
      assert Matches(after[|rows|], KeyOf(BatchSolutions, row));
    }
    forall key: Row | FindRow(rows, key).Some? ensures FindRow(after, key).Some? {
      FoundLater(rows, after, key);
    }
  }
}
