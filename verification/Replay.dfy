/** Rewinding is replaying, and committing twice is committing once (indexer/src/store.ts, indexer/src/project.ts). */
module Replay {
  import opened Common
  import opened Sorting
  import opened Projection
  import opened Store

  // ----- batch_solutions, the one table that does not come from logs

  /** A row of batch_solutions as a step writes it: its whole key, its deployment and its block. */
  predicate SolutionInsert(op: Op, deployment: nat)
  {
    && op.Insert? && op.table == BatchSolutions
    && Keys(BatchSolutions) + {BlockNumber} <= op.row.Keys
    && op.row[Deployment] == Number(deployment) && op.row[BlockNumber].Number?
  }

  predicate SolutionInserts(ops: seq<Op>, deployment: nat)
  {
    forall op :: op in ops ==> SolutionInsert(op, deployment)
  }

  function SolutionRows(rows: seq<Row>, ops: seq<Op>): seq<Row>
  {
    if ops == [] then rows else ApplyTo(SolutionRows(rows, ops[..|ops| - 1]), ops[|ops| - 1])
  }

  lemma {:induction false} SolutionRowsAppend(rows: seq<Row>, xs: seq<Op>, ys: seq<Op>)
    ensures SolutionRows(rows, xs + ys) == SolutionRows(SolutionRows(rows, xs), ys)
  {
    hide ApplyTo;
    if ys == [] {
      assert xs + ys == xs;
    } else {
      assert (xs + ys)[..|xs + ys| - 1] == xs + ys[..|ys| - 1];
      SolutionRowsAppend(rows, xs, ys[..|ys| - 1]);
    }
  }

  /** A step's extra ops change that table and nothing else. */
  lemma {:induction false} ExtraOnly(ts: Tables, ops: seq<Op>, deployment: nat)
    requires SolutionInserts(ops, deployment) && BatchSolutions in ts
    ensures ApplyAll(ts, ops) == ts[BatchSolutions := SolutionRows(ts[BatchSolutions], ops)]
  {
    hide ApplyTo;
    if ops != [] {
      ExtraOnly(ts, ops[..|ops| - 1], deployment);
      assert SolutionInsert(ops[|ops| - 1], deployment);
    }
  }

  lemma ApplyOff(ts: Tables, op: Op, rows: seq<Row>)
    requires op.table != BatchSolutions
    ensures Projection.Apply(ts[BatchSolutions := rows], op) == Projection.Apply(ts, op)[BatchSolutions := rows]
  {
    hide ApplyTo;
  }

  lemma {:induction false} ApplyAllOff(ts: Tables, ops: seq<Op>, rows: seq<Row>)
    requires forall op :: op in ops ==> op.table != BatchSolutions
    ensures ApplyAll(ts[BatchSolutions := rows], ops) == ApplyAll(ts, ops)[BatchSolutions := rows]
  {
    hide Projection.Apply;
    if ops != [] {
      ApplyAllOff(ts, ops[..|ops| - 1], rows);
      ApplyOff(ApplyAll(ts, ops[..|ops| - 1]), ops[|ops| - 1], rows);
    }
  }

  /** Folding logs in neither reads nor writes that table. */
  lemma {:induction false} ProjectAllOff(ts: Tables, logs: seq<DecodedLog>, rows: seq<Row>)
    ensures ProjectAll(ts[BatchSolutions := rows], logs) == ProjectAll(ts, logs)[BatchSolutions := rows]
  {
    hide ApplyAll, Project;
    if logs != [] {
      var init, l := logs[..|logs| - 1], logs[|logs| - 1];
      ProjectAllOff(ts, init, rows);
      ProjectFits(l);
      ApplyAllOff(ProjectAll(ts, init), Project(l), rows);
    }
  }

  // ----- what the tables are after any commits

  /** The tables are the fold of project over the stored logs, beside the inserts of batch_solutions. */
  ghost predicate Derived(c: Contents, extras: seq<Op>)
  {
    c.tables == ProjectAll(EmptyTables(), c.logs)[BatchSolutions := SolutionRows([], extras)]
  }

  lemma EmptyDerived()
    ensures Derived(EmptyContents(), [])
  {
    EveryTable(BatchSolutions);
    assert EmptyTables()[BatchSolutions := []] == EmptyTables();
  }

  lemma CommitLogDerived(c: Contents, l: DecodedLog, extras: seq<Op>)
    requires Derived(c, extras)
    ensures Derived(CommitLog(c, l), extras)
  {
    hide Project, ApplyAll, SolutionRows;
    if !HasLog(c.logs, l) {
      var rows := SolutionRows([], extras);
      ProjectFits(l);
      ApplyAllOff(ProjectAll(EmptyTables(), c.logs), Project(l), rows);
      assert (c.logs + [l])[..|c.logs|] == c.logs;
    }
  }

  lemma {:induction false} CommitLogsDerived(c: Contents, ls: seq<DecodedLog>, extras: seq<Op>)
    requires Derived(c, extras)
    ensures Derived(CommitLogs(c, ls), extras)
  {
    hide Derived, CommitLog;
    if ls != [] {
      CommitLogsDerived(c, ls[..|ls| - 1], extras);
      CommitLogDerived(CommitLogs(c, ls[..|ls| - 1]), ls[|ls| - 1], extras);
    }
  }

  /** A commit keeps the tables the fold over the logs, repeats and all. */
  lemma CommitDerived(c: Contents, w: StepWrite, extras: seq<Op>, deployment: nat)
    requires Derived(c, extras) && SolutionInserts(w.extra, deployment)
    ensures Derived(Commit(c, w), extras + w.extra)
  {
    CommitLogsDerived(c, w.logs, extras);
    CommitParts(c, w);
    var d := CommitLogs(c, w.logs);
    hide Commit, CommitLogs, ProjectAll, SolutionRows, ApplyAll, SolutionInserts, EmptyTables;
    ExtraOnly(d.tables, w.extra, deployment);
    SolutionRowsAppend([], extras, w.extra);
  }

  lemma CommitParts(c: Contents, w: StepWrite)
    ensures Commit(c, w).logs == CommitLogs(c, w.logs).logs
    ensures Commit(c, w).tables == ApplyAll(CommitLogs(c, w.logs).tables, w.extra)
  {
    hide ApplyAll, CommitLogs;
  }

  // ----- rewinding

  predicate Owned(logs: seq<DecodedLog>, deployment: nat)
  {
    forall l :: l in logs ==> l.deployment == deployment
  }

  function OpUpTo(n: nat): Op -> bool
  {
    (op: Op) => op.Insert? && BlockNumber in op.row && op.row[BlockNumber].Number? && op.row[BlockNumber].number <= n
  }

  /** By block, as steps write them. */
  predicate OpsInOrder(ops: seq<Op>, deployment: nat)
    requires SolutionInserts(ops, deployment)
  {
    forall j, k :: 0 <= j < k < |ops| ==> SolutionBlock(ops[j]) <= SolutionBlock(ops[k])
  }

  function SolutionBlock(op: Op): int
  {
    if op.Insert? && BlockNumber in op.row && op.row[BlockNumber].Number? then op.row[BlockNumber].number else 0
  }

  /** Every row of that table is some insert's row. */
  lemma {:induction false} SolutionRowFrom(ops: seq<Op>, deployment: nat)
    requires SolutionInserts(ops, deployment)
    ensures forall r :: r in SolutionRows([], ops) ==> exists op :: op in ops && op.row == r
  {
    if ops != [] {
      var init, op := ops[..|ops| - 1], ops[|ops| - 1];
      SolutionRowFrom(init, deployment);
      assert SolutionInsert(op, deployment);
      forall r | r in SolutionRows([], ops) ensures exists o :: o in ops && o.row == r {
        if r in SolutionRows([], init) {
          var o :| o in init && o.row == r;
          assert o in ops;
        } else {
          assert op in ops && op.row == r;
        }
      }
    }
  }

  /** Dropping the rows above a block is never having made their inserts. */
  lemma {:induction false} SolutionsRewind(ops: seq<Op>, deployment: nat, n: nat)
    requires SolutionInserts(ops, deployment) && OpsInOrder(ops, deployment)
    ensures Filter(SolutionRows([], ops), RowUpTo(deployment, n)) == SolutionRows([], Filter(ops, OpUpTo(n)))
  {
    if ops != [] {
      var init, op := ops[..|ops| - 1], ops[|ops| - 1];
      SolutionsRewind(init, deployment, n);
      assert SolutionInsert(op, deployment);
      if OpUpTo(n)(op) {
        OlderToo(ops, deployment, n);
      } else {
        NewerDropped(SolutionRows([], init), op, deployment, n);
      }
    }
  }

  /** If the last insert is old enough, so are all. */
  lemma OlderToo(ops: seq<Op>, deployment: nat, n: nat)
    requires SolutionInserts(ops, deployment) && OpsInOrder(ops, deployment)
    requires ops != [] && OpUpTo(n)(ops[|ops| - 1])
    ensures Filter(ops, OpUpTo(n)) == ops
    ensures Filter(SolutionRows([], ops), RowUpTo(deployment, n)) == SolutionRows([], ops)
  {
    var rows := SolutionRows([], ops);
    SolutionRowFrom(ops, deployment);
    hide SolutionRows, Filter;
    forall o | o in ops ensures OpUpTo(n)(o) {
      var k :| 0 <= k < |ops| && ops[k] == o;
      assert SolutionInsert(o, deployment);
      assert SolutionBlock(ops[k]) <= SolutionBlock(ops[|ops| - 1]);
    }
    FilterAll(ops, OpUpTo(n));
    forall r | r in rows ensures RowUpTo(deployment, n)(r) {
      var o :| o in ops && o.row == r;
    }
    FilterAll(rows, RowUpTo(deployment, n));
  }

  lemma NewerDropped(before: seq<Row>, op: Op, deployment: nat, n: nat)
    requires SolutionInsert(op, deployment) && !OpUpTo(n)(op)
    ensures Filter(ApplyTo(before, op), RowUpTo(deployment, n)) == Filter(before, RowUpTo(deployment, n))
  {
    hide KeyOf, FindRow;
    assert (before + [op.row])[..|before|] == before;
    assert !RowUpTo(deployment, n)(op.row);
  }

  lemma {:induction false} FilterSorted<T(!new)>(xs: seq<T>, p: T -> bool, le: (T, T) -> bool)
    requires Sorted(xs, le)
    ensures Sorted(Filter(xs, p), le)
  {
    if xs != [] {
      var init, x := xs[..|xs| - 1], xs[|xs| - 1];
      FilterSorted(init, p, le);
      forall i | 0 <= i < |Filter(init, p)| ensures le(Filter(init, p)[i], x) {
        assert Filter(init, p)[i] in init;
        var k :| 0 <= k < |init| && init[k] == Filter(init, p)[i];
        assert le(xs[k], xs[|init|]);
      }
    }
  }

  /** Sorting what is already in order changes nothing. */
  lemma {:induction false} SortSorted<T(!new)>(xs: seq<T>, le: (T, T) -> bool)
    requires Sorted(xs, le)
    ensures Sort(xs, le) == xs
  {
    if xs != [] {
      SortSorted(xs[..|xs| - 1], le);
      if |xs| > 1 {
        assert le(xs[|xs| - 2], xs[|xs| - 1]);
      }
    }
  }

  lemma EmptyTablesOk(deployment: nat)
    ensures TablesOk(EmptyTables(), deployment) && EmptyTables().Keys == AllTables()
  {
  }

  /** Clearing leaves the empty tables beside the older rows of batch_solutions. */
  lemma ClearedIsEmpty(c: Contents, extras: seq<Op>, deployment: nat, n: nat)
    requires Derived(c, extras) && Owned(c.logs, deployment)
    requires SolutionInserts(extras, deployment) && OpsInOrder(extras, deployment)
    ensures Cleared(c.tables, deployment, n) ==
      EmptyTables()[BatchSolutions := SolutionRows([], Filter(extras, OpUpTo(n)))]
  {
    var folded := ProjectAll(EmptyTables(), c.logs);
    hide ProjectAll, SolutionRows, RowUpTo, OpUpTo, EmptyTables, TablesOk, Cleared, Filter;
    EmptyTablesOk(deployment);
    ProjectAllKeeps(EmptyTables(), c.logs, deployment);
    SolutionsRewind(extras, deployment, n);
    forall t: Table ensures t in folded {
      EmptyAt(t);
    }
    ClearedFolded(folded, SolutionRows([], extras), deployment, n);
  }

  lemma EmptyAt(t: Table)
    ensures t in EmptyTables() && EmptyTables()[t] == []
  {
    EveryTable(t);
  }

  lemma ClearedFolded(folded: Tables, rows: seq<Row>, deployment: nat, n: nat)
    requires Complete(folded) && TablesOk(folded, deployment)
    ensures Cleared(folded[BatchSolutions := rows], deployment, n) ==
      EmptyTables()[BatchSolutions := Filter(rows, RowUpTo(deployment, n))]
  {
    hide EmptyTables, RowsOk, Filter, RowUpTo, OtherDeployment;
    var cleared := Cleared(folded[BatchSolutions := rows], deployment, n);
    var expected := EmptyTables()[BatchSolutions := Filter(rows, RowUpTo(deployment, n))];
    forall t: Table ensures t in cleared && t in expected && cleared[t] == expected[t] {
      assert t in folded;
      EmptyAt(t);
      NoneOfOthers(t, folded[t], deployment);
    }
  }

  lemma NoneOfOthers(t: Table, rows: seq<Row>, deployment: nat)
    requires RowsOk(t, rows, deployment)
    ensures Filter(rows, OtherDeployment(deployment)) == []
  {
    hide KeyOf;
    forall r | r in rows ensures !OtherDeployment(deployment)(r) {
      var i :| 0 <= i < |rows| && rows[i] == r;
    }
    FilterNone(rows, OtherDeployment(deployment));
  }

  /** After a rewind the tables are again the fold, now over the logs and inserts at or below the block. */
  lemma RewindDerived(c: Contents, extras: seq<Op>, deployment: nat, cp: Checkpoint)
    requires Derived(c, extras) && Owned(c.logs, deployment) && Sorted(c.logs, InOrder())
    requires SolutionInserts(extras, deployment) && OpsInOrder(extras, deployment)
    ensures Derived(Rewind(c, deployment, cp), Filter(extras, OpUpTo(cp.lastBlock)))
    ensures Rewind(c, deployment, cp).logs == Filter(c.logs, LogUpTo(cp.lastBlock))
  {
    var n := cp.lastBlock;
    ClearedIsEmpty(c, extras, deployment, n);
    FilterSorted(c.logs, LogUpTo(n), InOrder());
    SortSorted(Filter(c.logs, LogUpTo(n)), InOrder());
    hide Cleared, ProjectAll, SolutionRows, Filter, OpUpTo;
    ProjectAllOff(EmptyTables(), Filter(c.logs, LogUpTo(n)), SolutionRows([], Filter(extras, OpUpTo(n))));
  }

  // ----- whole histories of commits

  function CommitAll(c: Contents, ws: seq<StepWrite>): Contents
  {
    if ws == [] then c else Commit(CommitAll(c, ws[..|ws| - 1]), ws[|ws| - 1])
  }

  function LogsOf(ws: seq<StepWrite>): seq<DecodedLog>
  {
    if ws == [] then [] else LogsOf(ws[..|ws| - 1]) + ws[|ws| - 1].logs
  }

  function ExtrasOf(ws: seq<StepWrite>): seq<Op>
  {
    if ws == [] then [] else ExtrasOf(ws[..|ws| - 1]) + ws[|ws| - 1].extra
  }

  /** No two of the logs are the same log. */
  ghost predicate NoRepeats(logs: seq<DecodedLog>)
  {
    forall j, k :: 0 <= j < k < |logs| ==> !SameLog(logs[j], logs[k])
  }

  lemma {:induction false} FreshLogsAppend(c: Contents, ls: seq<DecodedLog>)
    requires NoRepeats(c.logs + ls)
    ensures CommitLogs(c, ls).logs == c.logs + ls
  {
    hide Project, ApplyAll;
    if ls == [] {
    } else {
      var init, l := ls[..|ls| - 1], ls[|ls| - 1];
      var all := c.logs + ls;
      assert all[..|all| - 1] == c.logs + init;
      forall j, k | 0 <= j < k < |c.logs + init| ensures !SameLog((c.logs + init)[j], (c.logs + init)[k]) {
        assert all[j] == (c.logs + init)[j] && all[k] == (c.logs + init)[k];
      }
      FreshLogsAppend(c, init);
      forall r | r in c.logs + init ensures !SameLog(r, l) {
        var j :| 0 <= j < |c.logs + init| && (c.logs + init)[j] == r;
        assert all[j] == r && all[|all| - 1] == l;
      }
      assert c.logs + init + [l] == all;
    }
  }

  lemma {:induction false} CommitsDerived(ws: seq<StepWrite>, deployment: nat)
    requires SolutionInserts(ExtrasOf(ws), deployment)
    ensures Derived(CommitAll(EmptyContents(), ws), ExtrasOf(ws))
    ensures NoRepeats(LogsOf(ws)) ==> CommitAll(EmptyContents(), ws).logs == LogsOf(ws)
  {
    if ws == [] {
      EmptyDerived();
    } else {
      var init, w := ws[..|ws| - 1], ws[|ws| - 1];
      hide Derived, Commit, SolutionInsert;
      CommitsDerived(init, deployment);
      CommitDerived(CommitAll(EmptyContents(), init), w, ExtrasOf(init), deployment);
      CommitParts(CommitAll(EmptyContents(), init), w);
      if NoRepeats(LogsOf(ws)) {
        NoRepeatsPrefix(LogsOf(init), w.logs);
        FreshLogsAppend(CommitAll(EmptyContents(), init), w.logs);
      }
    }
  }

  lemma NoRepeatsPrefix(xs: seq<DecodedLog>, ys: seq<DecodedLog>)
    requires NoRepeats(xs + ys)
    ensures NoRepeats(xs)
  {
    forall j, k | 0 <= j < k < |xs| ensures !SameLog(xs[j], xs[k]) {
      assert (xs + ys)[j] == xs[j] && (xs + ys)[k] == xs[k];
    }
  }

  /** Rewind equals replay. After any commits in block order, rewinding to a block leaves the tables and logs that
      committing only what is at or below it leaves, in whatever chunks that is done. */
  lemma RewindIsReplay(ws: seq<StepWrite>, vs: seq<StepWrite>, deployment: nat, cp: Checkpoint)
    requires NoRepeats(LogsOf(ws)) && Owned(LogsOf(ws), deployment) && Sorted(LogsOf(ws), InOrder())
    requires SolutionInserts(ExtrasOf(ws), deployment) && OpsInOrder(ExtrasOf(ws), deployment)
    requires LogsOf(vs) == Filter(LogsOf(ws), LogUpTo(cp.lastBlock))
    requires ExtrasOf(vs) == Filter(ExtrasOf(ws), OpUpTo(cp.lastBlock))
    ensures var rewound, replayed := Rewind(CommitAll(EmptyContents(), ws), deployment, cp),
      CommitAll(EmptyContents(), vs);
      rewound.tables == replayed.tables && rewound.logs == replayed.logs
  {
    CommitsDerived(ws, deployment);
    hide Rewind, CommitAll, OpUpTo, LogUpTo, ProjectAll, SolutionRows;
    RewindDerived(CommitAll(EmptyContents(), ws), ExtrasOf(ws), deployment, cp);
    assert SolutionInserts(ExtrasOf(vs), deployment);
    CommitsDerived(vs, deployment);
    FilterNoRepeats(LogsOf(ws), LogUpTo(cp.lastBlock));
  }

  lemma {:induction false} FilterNoRepeats(logs: seq<DecodedLog>, p: DecodedLog -> bool)
    requires NoRepeats(logs)
    ensures NoRepeats(Filter(logs, p))
  {
    if logs != [] {
      var init, l := logs[..|logs| - 1], logs[|logs| - 1];
      FilterNoRepeats(init, p);
      forall j | 0 <= j < |Filter(init, p)| ensures !SameLog(Filter(init, p)[j], l) {
        assert Filter(init, p)[j] in init;
        var k :| 0 <= k < |init| && init[k] == Filter(init, p)[j];
        assert logs[k] == init[k];
      }
    }
  }

  // ----- committing the same step twice

  lemma {:induction false} AllStored(c: Contents, ls: seq<DecodedLog>)
    ensures forall l :: l in c.logs ==> l in CommitLogs(c, ls).logs
    ensures forall l :: l in ls ==> HasLog(CommitLogs(c, ls).logs, l)
  {
    hide Project, ApplyAll;
    if ls != [] {
      var init, last := ls[..|ls| - 1], ls[|ls| - 1];
      AllStored(c, init);
      var d := CommitLogs(c, init);
      forall l | l in ls ensures HasLog(CommitLogs(c, ls).logs, l) {
        if l in init {
          var r :| r in d.logs && SameLog(r, l);
          assert r in CommitLogs(c, ls).logs;
        } else if HasLog(d.logs, last) {
          var r :| r in d.logs && SameLog(r, last);
        } else {
          assert last in CommitLogs(c, ls).logs && SameLog(last, last);
        }
      }
    }
  }

  lemma {:induction false} StoredChangesNothing(c: Contents, ls: seq<DecodedLog>)
    requires forall l :: l in ls ==> HasLog(c.logs, l)
    ensures CommitLogs(c, ls) == c
  {
    if ls != [] {
      StoredChangesNothing(c, ls[..|ls| - 1]);
    }
  }

  /** A row once inserted is found again. */
  lemma {:induction false} SolutionsStay(rows: seq<Row>, ops: seq<Op>, deployment: nat)
    requires SolutionInserts(ops, deployment)
    ensures forall r :: r in rows ==> r in SolutionRows(rows, ops)
    ensures forall op :: op in ops ==> FindRow(SolutionRows(rows, ops), KeyOf(BatchSolutions, op.row)).Some?
  {
    if ops != [] {
      var init, last := ops[..|ops| - 1], ops[|ops| - 1];
      SolutionsStay(rows, init, deployment);
      assert SolutionInsert(last, deployment);
      var before, after := SolutionRows(rows, init), SolutionRows(rows, ops);
      assert before <= after;
      forall op | op in ops ensures FindRow(after, KeyOf(BatchSolutions, op.row)).Some? {
        if op in init {
          FoundLater(before, after, KeyOf(BatchSolutions, op.row));
        } else if FindRow(before, KeyOf(BatchSolutions, last.row)).Some? {
          FoundLater(before, after, KeyOf(BatchSolutions, last.row));
        } else {
          MatchIsSameKey(BatchSolutions, last.row, last.row);
          assert Matches(after[|before|], KeyOf(BatchSolutions, last.row));
        }
      }
    }
  }

  lemma FoundLater(before: seq<Row>, after: seq<Row>, key: Row)
    requires before <= after && FindRow(before, key).Some?
    ensures FindRow(after, key).Some?
  {
    var i := FindRow(before, key).value;
    assert Matches(after[i], key);
  }

  lemma {:induction false} FoundChangesNothing(rows: seq<Row>, ops: seq<Op>, deployment: nat)
    requires SolutionInserts(ops, deployment)
    requires forall op :: op in ops ==> FindRow(rows, KeyOf(BatchSolutions, op.row)).Some?
    ensures SolutionRows(rows, ops) == rows
  {
    if ops != [] {
      FoundChangesNothing(rows, ops[..|ops| - 1], deployment);
      assert SolutionInsert(ops[|ops| - 1], deployment);
    }
  }

  lemma {:induction false} UndecodedStay(us: seq<UndecodedLog>, more: seq<UndecodedLog>)
    ensures us <= AddUndecoded(us, more)
    ensures forall u :: u in more ==> HasUndecoded(AddUndecoded(us, more), u)
  {
    if more != [] {
      var init, last := more[..|more| - 1], more[|more| - 1];
      UndecodedStay(us, init);
      var before, after := AddUndecoded(us, init), AddUndecoded(us, more);
      assert before <= after;
      forall u | u in more ensures HasUndecoded(after, u) {
        if u in init {
          var r :| r in before && r.txHash == u.txHash && r.logIndex == u.logIndex;
          assert r in after;
        } else if HasUndecoded(before, last) {
          var r :| r in before && r.txHash == last.txHash && r.logIndex == last.logIndex;
          assert r in after;
        } else {
          assert last in after;
        }
      }
    }
  }

  lemma {:induction false} KnownUndecoded(us: seq<UndecodedLog>, more: seq<UndecodedLog>)
    requires forall u :: u in more ==> HasUndecoded(us, u)
    ensures AddUndecoded(us, more) == us
  {
    if more != [] {
      KnownUndecoded(us, more[..|more| - 1]);
    }
  }

  // Setting blocks: what a number maps to, and that setting again changes nothing.

  ghost predicate Holds(bs: seq<BlockRow>, b: BlockRow)
  {
    b in bs && forall x :: x in bs && x.number == b.number ==> x == b
  }

  /** No number is stored twice. */
  ghost predicate OnePerNumber(bs: seq<BlockRow>)
  {
    forall j, k :: 0 <= j < k < |bs| ==> bs[j].number != bs[k].number
  }

  lemma SetHolds(bs: seq<BlockRow>, b: BlockRow)
    requires OnePerNumber(bs)
    ensures OnePerNumber(SetBlock(bs, b)) && Holds(SetBlock(bs, b), b)
    ensures forall x :: x in bs && x.number != b.number ==> x in SetBlock(bs, b)
    ensures forall x :: x in SetBlock(bs, b) ==> x == b || x in bs
  {
    var after := SetBlock(bs, b);
    if exists x :: x in bs && x.number == b.number {
      var i :| 0 <= i < |bs| && bs[i].number == b.number;
      assert after[i] == b;
      forall x | x in bs && x.number != b.number ensures x in after {
        var j :| 0 <= j < |bs| && bs[j] == x;
        assert after[j] == x;
      }
    } else {
      OneMoreNumber(bs, b);
    }
  }

  lemma OneMoreNumber(bs: seq<BlockRow>, b: BlockRow)
    requires OnePerNumber(bs) && forall x :: x in bs ==> x.number != b.number
    ensures OnePerNumber(bs + [b])
    ensures forall x :: x in bs + [b] <==> x in bs || x == b
  {
    forall j, k | 0 <= j < k < |bs + [b]| ensures (bs + [b])[j].number != (bs + [b])[k].number {
      assert (bs + [b])[j] in bs;
    }
  }

  lemma SetKnown(bs: seq<BlockRow>, b: BlockRow)
    requires Holds(bs, b)
    ensures SetBlock(bs, b) == bs
  {
    forall k | 0 <= k < |bs| && bs[k].number == b.number ensures bs[k] == b {
      assert bs[k] in bs;
    }
  }

  lemma {:induction false} SetsHold(bs: seq<BlockRow>, more: seq<BlockRow>)
    requires OnePerNumber(bs) && OnePerNumber(more)
    ensures OnePerNumber(SetBlocks(bs, more))
    ensures forall b :: b in more ==> Holds(SetBlocks(bs, more), b)
    ensures forall x :: x in SetBlocks(bs, more) ==> x in bs || x in more
  {
    if more != [] {
      var init, last := more[..|more| - 1], more[|more| - 1];
      SetsHold(bs, init);
      var before := SetBlocks(bs, init);
      SetHolds(before, last);
      forall b | b in more ensures Holds(SetBlocks(bs, more), b) {
        if b in init {
          var j :| 0 <= j < |init| && init[j] == b;
          assert more[j].number != more[|more| - 1].number;
        }
      }
    }
  }

  lemma {:induction false} SetsKnown(bs: seq<BlockRow>, more: seq<BlockRow>)
    requires forall b :: b in more ==> Holds(bs, b)
    ensures SetBlocks(bs, more) == bs
  {
    if more != [] {
      SetsKnown(bs, more[..|more| - 1]);
      SetKnown(bs, more[|more| - 1]);
    }
  }

  /** Committing the same step twice changes nothing: not a row, though its logs upsert and merge earlier ones. */
  lemma CommitTwice(c: Contents, w: StepWrite, deployment: nat)
    requires BatchSolutions in c.tables && SolutionInserts(w.extra, deployment)
    requires OnePerNumber(c.blocks) && OnePerNumber(w.blocks)
    ensures Commit(Commit(c, w), w) == Commit(c, w)
  {
    var once := Commit(c, w);
    AllStored(c, w.logs);
    CommitParts(c, w);
    StoredChangesNothing(once, w.logs);
    TablesStay(c, w.logs);
    SolutionsOnce(CommitLogs(c, w.logs).tables, w.extra, deployment);
    UndecodedStay(c.undecoded, w.undecoded);
    KnownUndecoded(once.undecoded, w.undecoded);
    SetsHold(c.blocks, w.blocks);
    SetsKnown(once.blocks, w.blocks);
  }

  lemma SolutionsOnce(ts: Tables, ops: seq<Op>, deployment: nat)
    requires BatchSolutions in ts && SolutionInserts(ops, deployment)
    ensures ApplyAll(ApplyAll(ts, ops), ops) == ApplyAll(ts, ops)
  {
    ExtraOnly(ts, ops, deployment);
    ExtraOnly(ApplyAll(ts, ops), ops, deployment);
    hide ApplyAll, SolutionRows, FindRow;
    SolutionsStay(ts[BatchSolutions], ops, deployment);
    FoundChangesNothing(SolutionRows(ts[BatchSolutions], ops), ops, deployment);
  }

  lemma {:induction false} TablesStay(c: Contents, ls: seq<DecodedLog>)
    requires BatchSolutions in c.tables
    ensures BatchSolutions in CommitLogs(c, ls).tables
  {
    hide Project;
    if ls != [] {
      TablesStay(c, ls[..|ls| - 1]);
      OpsKeepTables(CommitLogs(c, ls[..|ls| - 1]).tables, Project(ls[|ls| - 1]));
    }
  }

  lemma {:induction false} OpsKeepTables(ts: Tables, ops: seq<Op>)
    requires BatchSolutions in ts
    ensures BatchSolutions in ApplyAll(ts, ops)
  {
    hide ApplyTo;
    if ops != [] {
      OpsKeepTables(ts, ops[..|ops| - 1]);
    }
  }
}
