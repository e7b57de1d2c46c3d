/** Where the indexer writes, and how it rolls back (indexer/src/store.ts, MemoryStore for one deployment). */
module Store {
  import opened Common
  import opened Sorting
  import opened Projection

  datatype Checkpoint = Checkpoint(fromBlock: nat, lastBlock: nat, lastHash: nat)

  datatype BlockRow = BlockRow(number: nat, hash: nat)

  datatype UndecodedLog = UndecodedLog(blockNumber: nat, txHash: nat, logIndex: nat, address: nat)

  datatype StepWrite = StepWrite(checkpoint: Checkpoint, blocks: seq<BlockRow>, logs: seq<DecodedLog>,
    undecoded: seq<UndecodedLog>, extra: seq<Op>)

  datatype Contents = Contents(
    tables: Tables, logs: seq<DecodedLog>, undecoded: seq<UndecodedLog>, blocks: seq<BlockRow>,
      state: Option<Checkpoint>)

  function EmptyTables(): Tables { map t | t in AllTables() :: [] }

  function EmptyContents(): Contents { Contents(EmptyTables(), [], [], [], None) }

  // ----- commit

  predicate SameLog(a: DecodedLog, b: DecodedLog)
  {
    a.chainId == b.chainId && a.txHash == b.txHash && a.logIndex == b.logIndex
  }

  predicate HasLog(logs: seq<DecodedLog>, l: DecodedLog) { exists r :: r in logs && SameLog(r, l) }

  /** Stored and projected on first sight only. */
  function CommitLog(c: Contents, l: DecodedLog): Contents
  {
    if HasLog(c.logs, l) then c else c.(logs := c.logs + [l], tables := ApplyAll(c.tables, Project(l)))
  }

  function CommitLogs(c: Contents, ls: seq<DecodedLog>): Contents
  {
    if ls == [] then c else CommitLog(CommitLogs(c, ls[..|ls| - 1]), ls[|ls| - 1])
  }

  predicate HasUndecoded(us: seq<UndecodedLog>, u: UndecodedLog)
  {
    exists r :: r in us && r.txHash == u.txHash && r.logIndex == u.logIndex
  }

  function AddUndecoded(us: seq<UndecodedLog>, more: seq<UndecodedLog>): seq<UndecodedLog>
  {
    if more == [] then us
    else
      var before, u := AddUndecoded(us, more[..|more| - 1]), more[|more| - 1];
      if HasUndecoded(before, u) then before else before + [u]
  }

  /** Map.set: the entry's own place if the number is known, a new last place otherwise. */
  function SetBlock(bs: seq<BlockRow>, b: BlockRow): seq<BlockRow>
  {
    if exists x :: x in bs && x.number == b.number
    then seq(|bs|, k requires 0 <= k < |bs| => if bs[k].number == b.number then b else bs[k])
    else bs + [b]
  }

  function SetBlocks(bs: seq<BlockRow>, more: seq<BlockRow>): seq<BlockRow>
  {
    if more == [] then bs else SetBlock(SetBlocks(bs, more[..|more| - 1]), more[|more| - 1])
  }

  function Commit(c: Contents, w: StepWrite): Contents
  {
    var d := CommitLogs(c, w.logs);
    Contents(ApplyAll(d.tables, w.extra), d.logs, AddUndecoded(c.undecoded, w.undecoded),
      SetBlocks(c.blocks, w.blocks), Some(w.checkpoint))
  }

  // ----- reading and rewinding

  function NewestFirst(): (BlockRow, BlockRow) -> bool { (a: BlockRow, b: BlockRow) => a.number >= b.number }

  function AtOrBelow(n: nat): BlockRow -> bool { (b: BlockRow) => b.number <= n }

  function StoredBlocks(blocks: seq<BlockRow>, atOrBelow: nat, limit: nat): seq<BlockRow>
  {
    var sorted := Sort(Filter(blocks, AtOrBelow(atOrBelow)), NewestFirst());
    if |sorted| <= limit then sorted else sorted[..limit]
  }

  function LogUpTo(n: nat): DecodedLog -> bool { (l: DecodedLog) => l.blockNumber <= n }

  function UndecodedUpTo(n: nat): UndecodedLog -> bool { (u: UndecodedLog) => u.blockNumber <= n }

  /** Not this deployment's, or at or below the block. */
  function RowUpTo(deployment: nat, n: nat): Row -> bool
  {
    (r: Row) => !(Deployment in r && r[Deployment] == Number(deployment) && BlockNumber in r && r[BlockNumber].Number?
      && r[BlockNumber].number > n)
  }

  function OtherDeployment(deployment: nat): Row -> bool
  {
    (r: Row) => !(Deployment in r && r[Deployment] == Number(deployment))
  }

  function InOrder(): (DecodedLog, DecodedLog) -> bool
  {
    (a: DecodedLog, b: DecodedLog) =>
      a.blockNumber < b.blockNumber || (a.blockNumber == b.blockNumber && a.logIndex <= b.logIndex)
  }

  /** The tables with everything above the block dropped and every domain table emptied of the deployment. */
  function Cleared(ts: Tables, deployment: nat, n: nat): Tables
  {
    map t | t in ts ::
      if t == BatchSolutions then Filter(ts[t], RowUpTo(deployment, n)) else Filter(ts[t], OtherDeployment(deployment))
  }

  /** rewind: drop what is above the checkpoint and project the logs that remain again, in block order. */
  function Rewind(c: Contents, deployment: nat, cp: Checkpoint): Contents
  {
    var remaining := Filter(c.logs, LogUpTo(cp.lastBlock));
    Contents(
      ProjectAll(Cleared(c.tables, deployment, cp.lastBlock), Sort(remaining, InOrder())),
      remaining,
      Filter(c.undecoded, UndecodedUpTo(cp.lastBlock)),
      Filter(c.blocks, AtOrBelow(cp.lastBlock)),
      Some(cp))
  }

  // ----- the store

  class MemoryStore {
    const deployment: nat
    var tables: Tables
    var logs: seq<DecodedLog>
    var undecoded: seq<UndecodedLog>
    var blocks: seq<BlockRow>
    var state: Option<Checkpoint>

    constructor (deployment: nat)
      ensures this.deployment == deployment && Now() == EmptyContents()
    {
      this.deployment := deployment;
      tables, logs, undecoded, blocks, state := EmptyTables(), [], [], [], None;
    }

    function Now(): Contents
      reads this
    {
      Contents(tables, logs, undecoded, blocks, state)
    }

    /** apply. Rows are found and updated one at a time. */
    method Apply(op: Op)
      modifies this`tables
      ensures tables == Projection.Apply(old(tables), op)
    {
      var rows := if op.table in tables then tables[op.table] else [];
      match op {
        case Merge(_, key, fields) =>
          var k := 0;
          ghost var before := rows;
          while k < |rows|
            invariant k <= |rows| == |before|
            invariant forall j :: 0 <= j < k ==> rows[j] == MergeRows(before, key, fields)[j]
            invariant forall j :: k <= j < |rows| ==> rows[j] == before[j]
            invariant tables == old(tables)
          {
            if Matches(rows[k], key) {
              rows := rows[k := rows[k] + fields];
            }
            k := k + 1;
          }
          assert rows == MergeRows(before, key, fields);
        case Insert(t, row) =>
          var hit := Find(rows, KeyOf(t, row));
          if hit.None? { rows := rows + [row]; }
        case Upsert(t, row) =>
          var hit := Find(rows, KeyOf(t, row));
          rows := match hit case None => rows + [row] case Some(i) => rows[i := rows[i] + row];
      }
      tables := tables[op.table := rows];
    }

    method Find(rows: seq<Row>, key: Row) returns (r: Option<nat>)
      ensures r == FindRow(rows, key)
    {
      for k := 0 to |rows|
        invariant FindRow(rows[..k], key) == None
      {
        assert rows[..k + 1][..k] == rows[..k];
        if Matches(rows[k], key) {
          FoundStays(rows, key, k + 1, k);
          return Some(k);
        }
      }
      assert rows[..|rows|] == rows;
      r := None;
    }

    method ApplyOps(ops: seq<Op>)
      modifies this`tables
      ensures tables == ApplyAll(old(tables), ops)
    {
      for k := 0 to |ops|
        invariant tables == ApplyAll(old(tables), ops[..k])
      {
        assert ops[..k + 1][..k] == ops[..k];
        Apply(ops[k]);
      }
      assert ops[..|ops|] == ops;
    }

    /** The logs of a step, each stored and projected on first sight. */
    method CommitDecoded(ls: seq<DecodedLog>)
      modifies this
      ensures Now() == CommitLogs(old(Now()), ls)
    {
      for k := 0 to |ls|
        invariant Now() == CommitLogs(old(Now()), ls[..k])
      {
        assert ls[..k + 1][..k] == ls[..k];
        var l := ls[k];
        if !HasLog(logs, l) {
          logs := logs + [l];
          ApplyOps(Project(l));
        }
      }
      assert ls[..|ls|] == ls;
    }

    /** commit: logs with their ops, undecoded logs, extra ops, blocks, and the checkpoint. */
    method CommitStep(w: StepWrite)
      modifies this
      ensures Now() == Commit(old(Now()), w)
    {
      ghost var start := Now();
      CommitLogsTouch(start, w.logs);
      hide CommitLogs, ApplyAll, SetBlock, HasUndecoded;
      CommitDecoded(w.logs);
      ghost var settled := Now();
      for k := 0 to |w.undecoded|
        invariant Now() == settled.(undecoded := AddUndecoded(settled.undecoded, w.undecoded[..k]))
      {
        assert w.undecoded[..k + 1][..k] == w.undecoded[..k];
        if !HasUndecoded(undecoded, w.undecoded[k]) {
          undecoded := undecoded + [w.undecoded[k]];
        }
      }
      assert w.undecoded[..|w.undecoded|] == w.undecoded;
      ApplyOps(w.extra);
      ghost var extended := Now();
      for k := 0 to |w.blocks|
        invariant Now() == extended.(blocks := SetBlocks(extended.blocks, w.blocks[..k]))
      {
        assert w.blocks[..k + 1][..k] == w.blocks[..k];
        blocks := SetBlock(blocks, w.blocks[k]);
      }
      assert w.blocks[..|w.blocks|] == w.blocks;
      state := Some(w.checkpoint);
    }

    /** rewind, one remaining log at a time. */
    method RewindTo(cp: Checkpoint)
      modifies this
      ensures Now() == Rewind(old(Now()), deployment, cp)
    {
      logs := Filter(logs, LogUpTo(cp.lastBlock));
      undecoded := Filter(undecoded, UndecodedUpTo(cp.lastBlock));
      tables := Cleared(tables, deployment, cp.lastBlock);
      ghost var cleared := Now();
      var remaining := Sort(logs, InOrder());
      for k := 0 to |remaining|
        invariant Now() == cleared.(tables := ProjectAll(cleared.tables, remaining[..k]))
      {
        assert remaining[..k + 1][..k] == remaining[..k];
        ApplyOps(Project(remaining[k]));
      }
      assert remaining[..|remaining|] == remaining;
      blocks := Filter(blocks, AtOrBelow(cp.lastBlock));
      state := Some(cp);
    }
  }

  lemma {:induction false} FoundStays(rows: seq<Row>, key: Row, n: nat, i: nat)
    requires n <= |rows| && FindRow(rows[..n], key) == Some(i)
    ensures FindRow(rows, key) == Some(i)
  {
    if n == |rows| {
      assert rows[..n] == rows;
    } else {
      assert rows[..|rows| - 1][..n] == rows[..n];
      FoundStays(rows[..|rows| - 1], key, n, i);
    }
  }

  lemma {:induction false} CommitLogsTouch(c: Contents, ls: seq<DecodedLog>)
    ensures CommitLogs(c, ls).undecoded == c.undecoded && CommitLogs(c, ls).blocks == c.blocks
      && CommitLogs(c, ls).state == c.state
  {
    if ls != [] {
      CommitLogsTouch(c, ls[..|ls| - 1]);
    }
  }
}
