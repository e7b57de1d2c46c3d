/** Every run of indexer steps, with arbitrary reorgs between them. */
module Reorg {
  import opened Common
  import opened Sorting
  import opened Projection
  import opened Store
  import opened Replay
  import opened Ingest
  import opened Canonical
  import opened Undecoded

  /** The block past the last one the store covers; zero before the first commit. */
  function Height(c: Contents): nat
  {
    match c.state case None => 0 case Some(cp) => cp.lastBlock + 1
  }

  /** The store mirrors one history exactly: its checkpoint is that history's last block, its logs are that history's
      logs, its tables are the fold over them, and every stored block hash is on it. */
  ghost predicate Tracks(c: Contents, site: Site, h: Chain)
  {
    && Height(c) == |h|
    && (c.state.None? ==> c == EmptyContents())
    && (c.state.Some? ==> c.state.value.fromBlock == site.fromBlock <= |h| && h[|h| - 1].hash == c.state.value.lastHash)
    && Mirrors(c, site, h, |h|)
    && BlocksOn(c.blocks, site, h)
  }

  /** The logs, decoded and not, are the history's up to a height, and the tables the fold over them. */
  ghost predicate Mirrors(c: Contents, site: Site, h: Chain, height: nat)
    requires height <= |h|
  {
    && c.logs == LogsBetween(site, h, site.fromBlock, height)
    && c.undecoded == UndecodedBetween(site, h, site.fromBlock, height)
    && Derived(c, SolutionOps(site, c.logs))
  }

  lemma MirrorsIs(c: Contents, site: Site, h: Chain, height: nat)
    requires height <= |h|
    ensures Mirrors(c, site, h, height) <==>
      && c.logs == LogsBetween(site, h, site.fromBlock, height)
      && c.undecoded == UndecodedBetween(site, h, site.fromBlock, height)
      && Derived(c, SolutionOps(site, c.logs))
  {
  }

  ghost predicate BlocksOn(blocks: seq<BlockRow>, site: Site, h: Chain)
  {
    && OnePerNumber(blocks)
    && forall b :: b in blocks ==> site.fromBlock <= b.number < |h| && h[b.number].hash == b.hash
  }

  lemma NothingTracks(site: Site)
    ensures Tracks(EmptyContents(), site, [])
  {
    EmptyDerived();
  }

  lemma TracksOwned(c: Contents, site: Site, h: Chain)
    requires Tracks(c, site, h) && ChainOk(h)
    ensures Owned(c.logs, site.settlement) && Sorted(c.logs, InOrder()) && NoRepeats(c.logs)
  {
    LogsInOrder(site, h, site.fromBlock, |h|);
    forall l | l in c.logs ensures l.deployment == site.settlement {
      LogFrom(site, h, site.fromBlock, |h|, l);
    }
  }

  /** Rolling back to a block of the history leaves the store mirroring the history up to it. */
  lemma RewindTracks(c: Contents, site: Site, h: Chain, cp: Checkpoint)
    requires Tracks(c, site, h) && ChainOk(h) && c.state.Some?
    requires cp.fromBlock == site.fromBlock > 0 && site.fromBlock <= cp.lastBlock + 1 <= |h|
      && h[cp.lastBlock].hash == cp.lastHash
    ensures Tracks(Rewind(c, site.settlement, cp), site, h[..cp.lastBlock + 1])
  {
    hide ChainOk, Mirrors, Filter, LogsBetween, ProjectAll, Cleared;
    var n := cp.lastBlock;
    assert (h[..n + 1])[n] == h[n];
    TracksOwned(c, site, h);
    RewindMirrors(c, site, h, cp);
    FilterBlocks(c.blocks, n);
  }

  lemma RewindMirrors(c: Contents, site: Site, h: Chain, cp: Checkpoint)
    requires Mirrors(c, site, h, |h|) && ChainOk(h)
    requires Owned(c.logs, site.settlement) && Sorted(c.logs, InOrder())
    requires cp.lastBlock + 1 <= |h|
    ensures Mirrors(Rewind(c, site.settlement, cp), site, h[..cp.lastBlock + 1], cp.lastBlock + 1)
  {
    hide *;
    MirrorsIs(c, site, h, |h|);
    RewindLogs(c, site, h, cp);
    RewindUndecoded(c, site, h, cp);
    MirrorsIs(Rewind(c, site.settlement, cp), site, h[..cp.lastBlock + 1], cp.lastBlock + 1);
  }

  lemma RewindLogs(c: Contents, site: Site, h: Chain, cp: Checkpoint)
    requires c.logs == LogsBetween(site, h, site.fromBlock, |h|) && Derived(c, SolutionOps(site, c.logs))
    requires Owned(c.logs, site.settlement) && Sorted(c.logs, InOrder())
    requires cp.lastBlock + 1 <= |h|
    ensures var after := Rewind(c, site.settlement, cp);
      && after.logs == LogsBetween(site, h[..cp.lastBlock + 1], site.fromBlock, cp.lastBlock + 1)
      && Derived(after, SolutionOps(site, after.logs))
  {
    hide *;
    SolutionOpsInOrder(site, c.logs);
    RewindDerived(c, SolutionOps(site, c.logs), site.settlement, cp);
    LogsRewind(site, h, site.fromBlock, |h|, cp.lastBlock);
    SamePrefixLogs(site, h, h[..cp.lastBlock + 1], site.fromBlock, cp.lastBlock + 1);
    SolutionOpsFilter(site, c.logs, cp.lastBlock);
  }

  lemma RewindUndecoded(c: Contents, site: Site, h: Chain, cp: Checkpoint)
    requires c.undecoded == UndecodedBetween(site, h, site.fromBlock, |h|)
    requires cp.lastBlock + 1 <= |h|
    ensures Rewind(c, site.settlement, cp).undecoded ==
      UndecodedBetween(site, h[..cp.lastBlock + 1], site.fromBlock, cp.lastBlock + 1)
  {
    hide ProjectAll, Filter, Cleared, UndecodedBetween, LogsBetween;
    UndecodedRewind(site, h, site.fromBlock, |h|, cp.lastBlock);
    SamePrefixLogs(site, h, h[..cp.lastBlock + 1], site.fromBlock, cp.lastBlock + 1);
  }

  lemma {:induction false} FilterBlocks(bs: seq<BlockRow>, n: nat)
    requires OnePerNumber(bs)
    ensures OnePerNumber(Filter(bs, AtOrBelow(n)))
  {
    if bs != [] {
      var init, last := bs[..|bs| - 1], bs[|bs| - 1];
      FilterBlocks(init, n);
      forall x | x in Filter(init, AtOrBelow(n)) ensures x.number != last.number {
        var j :| 0 <= j < |init| && init[j] == x;
        assert bs[j] == x && bs[|init|] == last;
      }
      OneMoreNumber(Filter(init, AtOrBelow(n)), last);
    }
  }

  /** Starting over leaves the empty index below the first block, on whatever history the chain has now. */
  lemma ResetTracks(c: Contents, site: Site, h: Chain, chain: Chain)
    requires Tracks(c, site, h) && ChainOk(h) && site.fromBlock > 0
    requires Initial(site, chain).Some?
    ensures Tracks(Rewind(c, site.settlement, Initial(site, chain).value), site, chain[..site.fromBlock])
  {
    var cp := Initial(site, chain).value;
    TracksOwned(c, site, h);
    SolutionOpsInOrder(site, c.logs);
    hide ChainOk, Sorted, NoRepeats, Owned, SolutionOps, Derived, ProjectAll, Cleared;
    RewindDerived(c, SolutionOps(site, c.logs), site.settlement, cp);
    forall l | l in c.logs ensures !LogUpTo(cp.lastBlock)(l) {
      LogFrom(site, h, site.fromBlock, |h|, l);
    }
    FilterNone(c.logs, LogUpTo(cp.lastBlock));
    forall u | u in c.undecoded ensures !UndecodedUpTo(cp.lastBlock)(u) {
      RangeFrom(site, h, site.fromBlock, |h|, u);
    }
    FilterNone(c.undecoded, UndecodedUpTo(cp.lastBlock));
    SolutionOpsFilter(site, c.logs, cp.lastBlock);
    FilterNone(c.blocks, AtOrBelow(cp.lastBlock));
  }

  lemma {:induction false} LogBlocksOnce(chain: Chain, a: nat, b: nat)
    requires b <= |chain|
    ensures OnePerNumber(LogBlocks(chain, a, b))
  {
    if b > a {
      LogBlocksOnce(chain, a, b - 1);
      OneMoreNumber(LogBlocks(chain, a, b - 1), BlockRow(b - 1, chain[b - 1].hash));
    }
  }

  lemma BlocksReadOnce(chain: Chain, a: nat, to: nat)
    requires to < |chain|
    ensures OnePerNumber(BlocksRead(chain, a, to))
    ensures forall b :: b in BlocksRead(chain, a, to) ==>
      b.number <= to && (b.number == to || a <= b.number) && chain[b.number].hash == b.hash
  {
    LogBlocksOnce(chain, a, to);
    var rest, all := LogBlocks(chain, a, to), BlocksRead(chain, a, to);
    forall j, k | 0 <= j < k < |all| ensures all[j].number != all[k].number {
      assert all[k] == rest[k - 1] && rest[k - 1] in rest;
      if j > 0 { assert all[j] == rest[j - 1] && rest[j - 1] in rest; }
    }
  }

  /** Committing the next range of a chain that contains the history extends the history along that chain. */
  lemma CommitTracks(c: Contents, site: Site, chain: Chain, cp: Checkpoint, to: nat)
    requires ChainOk(chain) && 0 < site.fromBlock <= cp.lastBlock + 1 <= to < |chain| && cp.fromBlock == site.fromBlock
    requires Mirrors(c, site, chain, cp.lastBlock + 1) && BlocksOn(c.blocks, site, chain[..cp.lastBlock + 1])
    ensures Tracks(Commit(c, WriteOf(site, chain, cp, to)), site, chain[..to + 1])
  {
    hide ChainOk, Mirrors, BlocksOn, Commit, WriteOf, SetBlocks, Height, EmptyContents;
    CommitMirrors(c, site, chain, cp, to);
    CommitBlocks(c, site, chain, cp, to);
    CommitState(c, site, chain, cp, to);
    assert (chain[..to + 1])[to] == chain[to];
  }

  lemma CommitState(c: Contents, site: Site, chain: Chain, cp: Checkpoint, to: nat)
    requires to < |chain|
    ensures var w := WriteOf(site, chain, cp, to);
      && Commit(c, w).state == Some(cp.(lastBlock := to, lastHash := chain[to].hash))
      && Commit(c, w).blocks == SetBlocks(c.blocks, w.blocks)
      && Height(Commit(c, w)) == to + 1
  {
    hide CommitLogs, AddUndecoded, SetBlocks, WinningSolutions, LogsBetween, UndecodedBetween, BlocksRead, ApplyAll;
  }

  lemma CommitMirrors(c: Contents, site: Site, chain: Chain, cp: Checkpoint, to: nat)
    requires ChainOk(chain) && site.fromBlock <= cp.lastBlock + 1 <= to < |chain|
    requires Mirrors(c, site, chain, cp.lastBlock + 1)
    ensures Mirrors(Commit(c, WriteOf(site, chain, cp, to)), site, chain[..to + 1], to + 1)
  {
    hide *;
    var w, h := WriteOf(site, chain, cp, to), chain[..to + 1];
    var after := Commit(c, w);
    MirrorsIs(c, site, chain, cp.lastBlock + 1);
    WriteIs(site, chain, cp, to);
    assert after.logs == c.logs + w.logs == LogsBetween(site, chain, site.fromBlock, to + 1) by {
      LogsSplit(site, chain, site.fromBlock, cp.lastBlock + 1, to + 1);
      LogsInOrder(site, chain, site.fromBlock, to + 1);
      CommitParts(c, w);
      FreshLogsAppend(c, w.logs);
    }
    assert after.undecoded == c.undecoded + w.undecoded == UndecodedBetween(site, chain, site.fromBlock, to + 1) by {
      LogsSplit(site, chain, site.fromBlock, cp.lastBlock + 1, to + 1);
      UndecodedOnce(site, chain, site.fromBlock, to + 1);
      CommitUndecoded(c, w);
      UndecodedAppend(c.undecoded, w.undecoded);
    }
    assert Derived(after, SolutionOps(site, after.logs)) by {
      RangeOwned(site, chain, cp.lastBlock + 1, to + 1);
      WriteDerived(c, site, w);
      SolutionOpsJoin(site, c.logs, w.logs);
    }
    SamePrefixLogs(site, chain, h, site.fromBlock, to + 1);
    MirrorsIs(after, site, h, to + 1);
  }

  lemma CommitUndecoded(c: Contents, w: StepWrite)
    ensures Commit(c, w).undecoded == AddUndecoded(c.undecoded, w.undecoded)
  {
    hide CommitLogs, ApplyAll, AddUndecoded, SetBlocks;
  }

  lemma WriteIs(site: Site, chain: Chain, cp: Checkpoint, to: nat)
    requires to < |chain|
    ensures WriteOf(site, chain, cp, to).logs == LogsBetween(site, chain, cp.lastBlock + 1, to + 1)
    ensures WriteOf(site, chain, cp, to).undecoded == UndecodedBetween(site, chain, cp.lastBlock + 1, to + 1)
    ensures WriteOf(site, chain, cp, to).extra == WinningSolutions(site, WriteOf(site, chain, cp, to).logs).ops
  {
  }

  lemma CommitBlocks(c: Contents, site: Site, chain: Chain, cp: Checkpoint, to: nat)
    requires site.fromBlock <= cp.lastBlock + 1 <= to < |chain|
    requires BlocksOn(c.blocks, site, chain[..cp.lastBlock + 1])
    ensures BlocksOn(SetBlocks(c.blocks, WriteOf(site, chain, cp, to).blocks), site, chain[..to + 1])
  {
    hide BlocksRead, SetBlocks, LogsBetween, UndecodedBetween, WinningSolutions;
    BlocksReadOnce(chain, cp.lastBlock + 1, to);
    SetsHold(c.blocks, BlocksRead(chain, cp.lastBlock + 1, to));
  }

  lemma RangeOwned(site: Site, chain: Chain, a: nat, b: nat)
    requires b <= |chain|
    ensures Owned(LogsBetween(site, chain, a, b), site.settlement)
  {
    forall l | l in LogsBetween(site, chain, a, b) ensures l.deployment == site.settlement {
      LogFrom(site, chain, a, b, l);
    }
  }

  /** The ops a step writes beside its logs leave batch_solutions as one insert per closing log would. */
  lemma WriteDerived(c: Contents, site: Site, w: StepWrite)
    requires Derived(c, SolutionOps(site, c.logs)) && Owned(w.logs, site.settlement)
    requires w.extra == WinningSolutions(site, w.logs).ops
    ensures Derived(Commit(c, w), SolutionOps(site, c.logs) + SolutionOps(site, w.logs))
  {
    var rows := SolutionRows([], SolutionOps(site, c.logs));
    SkipDoesNotShow(site, w.logs, rows);
    CommitDerived(c, w, SolutionOps(site, c.logs), site.settlement);
    hide Commit, SolutionOps, WinningSolutions, SolutionRows, ProjectAll;
    SolutionRowsAppend([], SolutionOps(site, c.logs), w.extra);
    SolutionRowsAppend([], SolutionOps(site, c.logs), SolutionOps(site, w.logs));
  }

  // ----- one step

  /** The history is the chain's own, up to its height. */
  ghost predicate On(h: Chain, chain: Chain)
  {
    |h| <= |chain| && h == chain[..|h|]
  }

  lemma MirrorsOn(c: Contents, site: Site, h: Chain, chain: Chain)
    requires Mirrors(c, site, h, |h|) && On(h, chain)
    ensures Mirrors(c, site, chain, |h|)
  {
    hide *;
    assert h[..|h|] == h == chain[..|h|] by { OnIs(h, chain); }
    SamePrefixLogs(site, h, chain, site.fromBlock, |h|);
    MirrorsIs(c, site, h, |h|);
    MirrorsIs(c, site, chain, |h|);
  }

  lemma OnIs(h: Chain, chain: Chain)
    requires On(h, chain)
    ensures |h| <= |chain| && h == chain[..|h|]
  {
  }

  /** Where nothing is stored yet, the first range starts from nothing. */
  lemma EmptyMirrors(site: Site, chain: Chain, height: nat)
    requires height <= |chain| && height <= site.fromBlock
    ensures Mirrors(EmptyContents(), site, chain, height)
    ensures BlocksOn(EmptyContents().blocks, site, chain[..height])
  {
    EmptyDerived();
  }

  /** A step forward from a history the chain contains ends on a history the chain contains. */
  lemma ForwardTracks(ix: Indexer, site: Site, w: Conditions, cp: Checkpoint, k: Chain, rewoundTo: Option<nat>,
      fullReset: bool) returns (h: Chain)
    requires Tracks(ix.contents, site, k) && On(k, w.chain) && ChainOk(w.chain) && site.fromBlock > 0
    requires CheckpointOf(ix.contents, site, w.chain) == Some(cp)
    ensures Tracks(Forward(ix, site, w, cp, rewoundTo, fullReset).indexer.contents, site, h) && On(h, w.chain)
  {
    h := k;
    var head := SafeHead(w);
    var to := if head < cp.lastBlock + MAX_RANGE then head else cp.lastBlock + MAX_RANGE;
    hide WriteOf, Commit, ChainOk, Mirrors, BlocksOn, EmptyContents;
    if to >= cp.lastBlock + 1 && w.fault != BeforeCommit {
      if ix.contents.state.None? {
        EmptyMirrors(site, w.chain, site.fromBlock);
      } else {
        MirrorsOn(ix.contents, site, k, w.chain);
      }
      CommitTracks(ix.contents, site, w.chain, cp, to);
      h := w.chain[..to + 1];
    }
  }

  /** Agreeing on one block is agreeing on everything below it. */
  lemma AgreeBelow(h: Chain, chain: Chain, n: nat)
    requires HashesBind(h, chain) && n < |h| && Agrees(chain, n, h[n].hash)
    ensures On(h[..n + 1], chain)
  {
    assert h[..n + 1] == chain[..n + 1];
  }

  lemma {:induction false} FirstAgreeingIs(stored: seq<BlockRow>, chain: Chain) returns (i: nat)
    ensures match FirstAgreeing(stored, chain)
      case Some(s) => i < |stored| && stored[i] == s && Agrees(chain, s.number, s.hash) && forall j :: 0 <= j < i ==>
        !Agrees(chain, stored[j].number, stored[j].hash)
      case None => forall j :: 0 <= j < |stored| ==> !Agrees(chain, stored[j].number, stored[j].hash)
  {
    i := 0;
    if stored != [] && !Agrees(chain, stored[0].number, stored[0].hash) {
      i := FirstAgreeingIs(stored[1..], chain);
      i := i + 1;
      forall j | 0 <= j < |stored| && FirstAgreeing(stored, chain).None?
        ensures !Agrees(chain, stored[j].number, stored[j].hash) {
        if j > 0 { assert stored[j] == stored[1..][j - 1]; }
      }
      forall j | 0 <= j < i && FirstAgreeing(stored, chain).Some?
        ensures !Agrees(chain, stored[j].number, stored[j].hash) {
        if j > 0 { assert stored[j] == stored[1..][j - 1]; }
      }
    }
  }

  lemma StoredBlocksFacts(blocks: seq<BlockRow>, atOrBelow: nat, limit: nat)
    ensures var stored := StoredBlocks(blocks, atOrBelow, limit);
      && |stored| <= limit
      && (forall b :: b in stored ==> b in blocks && b.number <= atOrBelow)
      && (forall i, j :: 0 <= i < j < |stored| ==> stored[i].number >= stored[j].number)
      && (forall b :: b in blocks && b.number <= atOrBelow && b !in stored ==>
            |stored| == limit && forall i :: 0 <= i < |stored| ==> stored[i].number >= b.number)
  {
    hide Sort, Filter;
    var sorted := Sort(Filter(blocks, AtOrBelow(atOrBelow)), NewestFirst());
    var stored := StoredBlocks(blocks, atOrBelow, limit);
    NewestFirstFacts(blocks, atOrBelow);
    assert |stored| <= limit && stored == sorted[..|stored|] && (|stored| < |sorted| ==> |stored| == limit);
    hide *;
    forall b | b in stored ensures b in blocks && b.number <= atOrBelow {
      assert b in sorted;
    }
    forall k | 0 <= k < |stored| ensures sorted[k] in stored {
      assert stored[k] == sorted[k];
    }
    forall b | b in blocks && b.number <= atOrBelow && b !in stored
      ensures |stored| == limit && forall i :: 0 <= i < |stored| ==> stored[i].number >= b.number
    {
      var k :| 0 <= k < |sorted| && sorted[k] == b;
      assert k >= |stored|;
    }
  }

  /** The rows at or below a height, newest first. */
  lemma NewestFirstFacts(blocks: seq<BlockRow>, atOrBelow: nat)
    ensures var sorted := Sort(Filter(blocks, AtOrBelow(atOrBelow)), NewestFirst());
      && (forall b :: b in sorted <==> b in blocks && b.number <= atOrBelow)
      && (forall i, j :: 0 <= i < j < |sorted| ==> sorted[i].number >= sorted[j].number)
  {
    hide Sort, Filter;
    var kept := Filter(blocks, AtOrBelow(atOrBelow));
    SortPermutes(kept, NewestFirst());
    SortSorts(kept, NewestFirst());
    var sorted := Sort(kept, NewestFirst());
    forall i, j | 0 <= i < j < |sorted| ensures sorted[i].number >= sorted[j].number {
      assert NewestFirst()(sorted[i], sorted[j]);
    }
  }

  /** The block rolled back to is the newest stored one the chain still has. */
  lemma RewindIsNewest(c: Contents, site: Site, chain: Chain, cp: Checkpoint)
    requires FirstAgreeing(StoredBlocks(c.blocks, cp.lastBlock, MAX_REWIND), chain).Some?
    ensures var s := FirstAgreeing(StoredBlocks(c.blocks, cp.lastBlock, MAX_REWIND), chain).value;
      && s in c.blocks && s.number <= cp.lastBlock && Agrees(chain, s.number, s.hash)
      && forall b :: b in c.blocks && s.number < b.number <= cp.lastBlock ==> !Agrees(chain, b.number, b.hash)
  {
    var stored := StoredBlocks(c.blocks, cp.lastBlock, MAX_REWIND);
    StoredBlocksFacts(c.blocks, cp.lastBlock, MAX_REWIND);
    hide StoredBlocks, FirstAgreeing, Agrees;
    var i := FirstAgreeingIs(stored, chain);
    forall b | b in c.blocks && stored[i].number < b.number <= cp.lastBlock ensures !Agrees(chain, b.number, b.hash) {
      assert b in stored;
      var j :| 0 <= j < |stored| && stored[j] == b;
      assert j < i;
    }
  }

  /** One step, whatever the chain has become and wherever a read fails: the store mirrors one history, a prefix of the
      old one or of the chain; and when the step succeeds it is the chain's. */
  lemma StepTracks(ix: Indexer, site: Site, w: Conditions, h: Chain) returns (k: Chain)
    requires Tracks(ix.contents, site, h) && ChainOk(h) && ChainOk(w.chain) && HashesBind(h, w.chain)
      && site.fromBlock > 0
    ensures Tracks(Step(ix, site, w).indexer.contents, site, k)
    ensures On(k, h) || On(k, w.chain)
    ensures Step(ix, site, w).result.Ok? ==> On(k, w.chain)
  {
    k := h;
    assert h == h[..|h|];
    if w.fault != BeforeRewind && CheckpointOf(ix.contents, site, w.chain).Some? {
      var cp := CheckpointOf(ix.contents, site, w.chain).value;
      hide Rewind, Commit, WriteOf, Forward, StoredBlocks, ChainOk, Mirrors, BlocksOn, HashesBind, EmptyContents;
      if Agrees(w.chain, cp.lastBlock, cp.lastHash) {
        if ix.contents.state.Some? {
          AgreeBelow(h, w.chain, cp.lastBlock);
          assert h[..cp.lastBlock + 1] == h;
        }
        k := ForwardTracks(ix, site, w, cp, h, None, false);
      } else {
        k := RewoundTracks(ix, site, w, cp, h);
        var r := RewindFrom(ix, site, w, cp);
        if r.result.Ok? {
          var after := CheckpointOf(r.indexer.contents, site, w.chain).value;
          k := ForwardTracks(r.indexer, site, w, after, k, Some(r.result.value.0), r.result.value.1);
        }
      }
    }
  }

  lemma RewoundTracks(ix: Indexer, site: Site, w: Conditions, cp: Checkpoint, h: Chain) returns (k: Chain)
    requires Tracks(ix.contents, site, h) && ChainOk(h) && HashesBind(h, w.chain) && site.fromBlock > 0
    requires ix.contents.state == Some(cp)
    ensures var r := RewindFrom(ix, site, w, cp);
      && Tracks(r.indexer.contents, site, k)
      && (On(k, h) || On(k, w.chain))
      && (r.result.Ok? ==> On(k, w.chain) && r.indexer.contents.state.Some?)
  {
    var found := FirstAgreeing(StoredBlocks(ix.contents.blocks, cp.lastBlock, MAX_REWIND), w.chain);
    hide StoredBlocks, FirstAgreeing, ChainOk, Mirrors, BlocksOn, HashesBind, Rewind, EmptyContents;
    if found.Some? {
      BackTracks(ix.contents, site, w.chain, cp, h);
      k := h[..found.value.number + 1];
    } else {
      k := if RewindFrom(ix, site, w, cp).result.Ok? then w.chain[..site.fromBlock] else h;
      assert h == h[..|h|];
      if RewindFrom(ix, site, w, cp).result.Ok? {
        ResetTracks(ix.contents, site, h, w.chain);
      }
    }
  }

  lemma BackTracks(c: Contents, site: Site, chain: Chain, cp: Checkpoint, h: Chain)
    requires Tracks(c, site, h) && ChainOk(h) && HashesBind(h, chain) && site.fromBlock > 0
    requires c.state == Some(cp)
    requires FirstAgreeing(StoredBlocks(c.blocks, cp.lastBlock, MAX_REWIND), chain).Some?
    ensures var s := FirstAgreeing(StoredBlocks(c.blocks, cp.lastBlock, MAX_REWIND), chain).value;
      && s.number < |h|
      && Tracks(Rewind(c, site.settlement, cp.(lastBlock := s.number, lastHash := s.hash)), site, h[..s.number + 1])
      && On(h[..s.number + 1], chain)
      && Rewind(c, site.settlement, cp.(lastBlock := s.number, lastHash := s.hash)).state.Some?
  {
    hide StoredBlocks, FirstAgreeing, ChainOk, Mirrors, HashesBind, EmptyContents, Filter, Sort, ProjectAll, Cleared,
      OnePerNumber;
    RewindIsNewest(c, site, chain, cp);
    var s := FirstAgreeing(StoredBlocks(c.blocks, cp.lastBlock, MAX_REWIND), chain).value;
    hide StoredBlocks, FirstAgreeing, ChainOk, Mirrors, HashesBind, EmptyContents, Filter, Sort, ProjectAll, Cleared;
    assert h[s.number].hash == s.hash && site.fromBlock <= s.number < |h|;
    AgreeBelow(h, chain, s.number);
    RewindTracks(c, site, h, cp.(lastBlock := s.number, lastHash := s.hash));
  }

  // ----- every run

  /** The indexer after each step of a run. */
  function Run(site: Site, ws: seq<Conditions>): Indexer
    requires site.fromBlock > 0
  {
    if ws == [] then Indexer(EmptyContents(), 0) else Step(Run(site, ws[..|ws| - 1]), site, ws[|ws| - 1]).indexer
  }

  /** Every chain the run sees is well formed, and block hashes mean the same history in all of them. */
  ghost predicate Lawful(ws: seq<Conditions>)
  {
    && (forall w :: w in ws ==> ChainOk(w.chain))
    && (forall v, w :: v in ws && w in ws ==> HashesBind(v.chain, w.chain))
  }

  lemma PrefixBinds(h: Chain, a: Chain, b: Chain)
    requires On(h, a) && HashesBind(a, b)
    ensures HashesBind(h, b)
  {
    forall n | 0 <= n < |h| && n < |b| && h[n].hash == b[n].hash ensures h[..n + 1] == b[..n + 1] {
      assert h[n] == a[n];
      assert h[..n + 1] == a[..n + 1];
    }
  }

  lemma OnOn(k: Chain, h: Chain, chain: Chain)
    requires On(k, h) && On(h, chain)
    ensures On(k, chain)
  {
    assert h[..|k|] == chain[..|h|][..|k|] == chain[..|k|];
  }

  lemma Unbroken(ws: seq<Conditions>, n: nat)
    requires Lawful(ws) && n <= |ws|
    ensures Lawful(ws[..n])
  {
  }

  /** After any steps the store mirrors one history, and that history is a prefix of some chain the run has seen. */
  lemma {:induction false} RunTracks(site: Site, ws: seq<Conditions>) returns (h: Chain)
    requires site.fromBlock > 0 && Lawful(ws)
    ensures Tracks(Run(site, ws).contents, site, h)
    ensures h == [] || exists w :: w in ws && On(h, w.chain)
  {
    hide Tracks, Step, ChainOk, HashesBind;
    if ws == [] {
      NothingTracks(site);
      h := [];
    } else {
      var init, w := ws[..|ws| - 1], ws[|ws| - 1];
      Unbroken(ws, |ws| - 1);
      var before := RunTracks(site, init);
      RunLawful(ws, before, w);
      h := StepTracks(Run(site, init), site, w, before);
      if !On(h, w.chain) && before != [] {
        var v :| v in init && On(before, v.chain);
        OnOn(h, before, v.chain);
        assert v in ws;
      }
    }
  }

  /** The history so far is as lawful as the chains it came from. */
  lemma RunLawful(ws: seq<Conditions>, h: Chain, w: Conditions)
    requires Lawful(ws) && ws != [] && w == ws[|ws| - 1]
    requires h == [] || exists v :: v in ws[..|ws| - 1] && On(h, v.chain)
    ensures ChainOk(h) && HashesBind(h, w.chain) && ChainOk(w.chain)
  {
    assert w in ws;
    if h != [] {
      var v :| v in ws[..|ws| - 1] && On(h, v.chain);
      assert v in ws && HashesBind(v.chain, w.chain);
      hide HashesBind;
      PrefixOk(v.chain, |h|);
      PrefixBinds(h, v.chain, w.chain);
    }
  }

  /** The main result on indexing. Over every run of steps, with the chain rewritten at will between them and reads that
      fail, whenever a step succeeds the logs stored, those that decode and those that do not, are exactly the canonical
      chain's up to the checkpoint, and the tables are exactly the fold of project over them. */
  lemma CanonicalTables(site: Site, ws: seq<Conditions>)
    requires site.fromBlock > 0 && Lawful(ws) && ws != []
    requires Step(Run(site, ws[..|ws| - 1]), site, ws[|ws| - 1]).result.Ok?
    ensures var c, chain := Run(site, ws).contents, ws[|ws| - 1].chain;
      && Height(c) <= |chain|
      && c.logs == LogsBetween(site, chain, site.fromBlock, Height(c))
      && c.undecoded == UndecodedBetween(site, chain, site.fromBlock, Height(c))
      && c.tables == ProjectAll(EmptyTables(), c.logs)[BatchSolutions := SolutionRows([], SolutionOps(site, c.logs))]
      && TablesOk(ProjectAll(EmptyTables(), c.logs), site.settlement)
  {
    var init, w := ws[..|ws| - 1], ws[|ws| - 1];
    Unbroken(ws, |ws| - 1);
    var before := RunTracks(site, init);
    RunLawful(ws, before, w);
    hide Tracks, Step, HashesBind, ProjectAll, SolutionRows, SolutionOps, TablesOk;
    var h := StepTracks(Run(site, init), site, w, before);
    TracksOn(Run(site, ws).contents, site, h, w.chain);
  }

  lemma TracksOn(c: Contents, site: Site, h: Chain, chain: Chain)
    requires Tracks(c, site, h) && On(h, chain) && ChainOk(chain)
    ensures Height(c) == |h| <= |chain|
    ensures c.logs == LogsBetween(site, chain, site.fromBlock, Height(c))
    ensures c.undecoded == UndecodedBetween(site, chain, site.fromBlock, Height(c))
    ensures c.tables == ProjectAll(EmptyTables(), c.logs)[BatchSolutions := SolutionRows([], SolutionOps(site, c.logs))]
    ensures TablesOk(ProjectAll(EmptyTables(), c.logs), site.settlement)
  {
    hide ProjectAll, SolutionRows, SolutionOps, ChainOk, TablesOk, EmptyTables, EmptyContents;
    PrefixOk(chain, |h|);
    SamePrefixLogs(site, h, chain, site.fromBlock, |h|);
    TracksOwned(c, site, h);
    EmptyTablesOk(site.settlement);
    ProjectAllKeeps(EmptyTables(), c.logs, site.settlement);
  }

  // ----- progress

  /** How far a successful step gets: to the safe head, or to the end of the largest range, from the checkpoint it stood
      on or rolled back to. */
  lemma StepReaches(ix: Indexer, site: Site, w: Conditions)
    requires site.fromBlock > 0 && Step(ix, site, w).result.Ok?
    ensures var r, after := Step(ix, site, w).result.value, Step(ix, site, w).indexer.contents;
      && (r.rewoundTo.Some? ==> r.from == r.rewoundTo.value + 1)
      && (r.rewoundTo.None? ==> r.from == if ix.contents.state.Some? then Height(ix.contents) else site.fromBlock)
      && r.to == Max(r.from - 1, Min(SafeHead(w), r.from - 1 + MAX_RANGE))
      && (r.to >= r.from || after.state.Some? ==> Height(after) == r.to + 1)
  {
    hide Forward, Rewind, StoredBlocks, FirstAgreeing, SafeHead;
    var cp := CheckpointOf(ix.contents, site, w.chain).value;
    if Agrees(w.chain, cp.lastBlock, cp.lastHash) {
      ForwardReaches(ix, site, w, cp, None, false);
    } else {
      var r := RewindFrom(ix, site, w, cp);
      RewindStands(ix, site, w, cp);
      var after := CheckpointOf(r.indexer.contents, site, w.chain).value;
      ForwardReaches(r.indexer, site, w, after, Some(r.result.value.0), r.result.value.1);
    }
  }

  lemma RewindStands(ix: Indexer, site: Site, w: Conditions, cp: Checkpoint)
    requires site.fromBlock > 0 && RewindFrom(ix, site, w, cp).result.Ok?
    ensures var r := RewindFrom(ix, site, w, cp);
      r.indexer.contents.state.Some? && r.indexer.contents.state.value.lastBlock == r.result.value.0
  {
    hide StoredBlocks, FirstAgreeing, ProjectAll, Filter, Cleared;
  }

  lemma ForwardReaches(ix: Indexer, site: Site, w: Conditions, cp: Checkpoint, rewoundTo: Option<nat>, fullReset: bool)
    requires Forward(ix, site, w, cp, rewoundTo, fullReset).result.Ok?
    requires ix.contents.state.Some? ==> ix.contents.state == Some(cp)
    ensures var o := Forward(ix, site, w, cp, rewoundTo, fullReset);
      var r, after := o.result.value, o.indexer.contents;
      && r.rewoundTo == rewoundTo && r.from == cp.lastBlock + 1
      && r.to == Max(r.from - 1, Min(SafeHead(w), r.from - 1 + MAX_RANGE))
      && (r.to >= r.from || after.state.Some? ==> Height(after) == r.to + 1)
  {
    hide WriteOf, CommitLogs, SetBlocks, AddUndecoded, ApplyAll, SafeHead;
    SafeHeadIsHeld(w);
    var to := if SafeHead(w) < cp.lastBlock + MAX_RANGE then SafeHead(w) else cp.lastBlock + MAX_RANGE;
    if to > cp.lastBlock { WriteEnds(site, w.chain, cp, to); }
  }

  lemma SafeHeadIsHeld(w: Conditions)
    ensures SafeHead(w) > 0 ==> SafeHead(w) < |w.chain|
  {
  }

  lemma WriteEnds(site: Site, chain: Chain, cp: Checkpoint, to: nat)
    requires to < |chain|
    ensures WriteOf(site, chain, cp, to).checkpoint == cp.(lastBlock := to, lastHash := chain[to].hash)
  {
    hide LogsBetween, UndecodedBetween, WinningSolutions, BlocksRead;
  }

  /** The indexer after n steps under conditions that do not change. */
  function StepsOn(ix: Indexer, site: Site, w: Conditions, n: nat): Indexer
    requires site.fromBlock > 0
  {
    if n == 0 then ix else Step(StepsOn(ix, site, w, n - 1), site, w).indexer
  }

  /** While the chain stands still and reads succeed, every step moves the checkpoint 500 blocks on, up to
      the safe head. */
  lemma {:induction false} CatchesUp(ix: Indexer, site: Site, w: Conditions, n: nat)
    requires site.fromBlock > 0 && w.fault == NoFault
    requires ix.contents.state.Some? && var cp := ix.contents.state.value;
      Agrees(w.chain, cp.lastBlock, cp.lastHash) && cp.lastBlock <= SafeHead(w) < |w.chain|
    ensures var after := StepsOn(ix, site, w, n).contents.state;
      && after.Some? && Agrees(w.chain, after.value.lastBlock, after.value.lastHash)
      && after.value.lastBlock == Min(SafeHead(w), ix.contents.state.value.lastBlock + MAX_RANGE * n)
  {
    hide Step, SafeHead;
    if n > 0 {
      CatchesUp(ix, site, w, n - 1);
      StepOn(StepsOn(ix, site, w, n - 1), site, w);
      var start: nat := ix.contents.state.value.lastBlock;
      Strides(start, n);
    }
  }

  lemma Strides(start: nat, n: nat)
    requires n > 0
    ensures start + MAX_RANGE * n == start + MAX_RANGE * (n - 1) + MAX_RANGE
  {
  }

  lemma StepOn(ix: Indexer, site: Site, w: Conditions)
    requires site.fromBlock > 0 && w.fault == NoFault
    requires ix.contents.state.Some? && var cp := ix.contents.state.value;
      Agrees(w.chain, cp.lastBlock, cp.lastHash) && cp.lastBlock <= SafeHead(w) < |w.chain|
    ensures var after := Step(ix, site, w).indexer.contents.state;
      && after.Some? && Agrees(w.chain, after.value.lastBlock, after.value.lastHash)
      && after.value.lastBlock == Min(SafeHead(w), ix.contents.state.value.lastBlock + MAX_RANGE)
  {
    hide WriteOf, CommitLogs, SetBlocks, AddUndecoded, ApplyAll, SafeHead;
    var cp := ix.contents.state.value;
    var to := if SafeHead(w) < cp.lastBlock + MAX_RANGE then SafeHead(w) else cp.lastBlock + MAX_RANGE;
    WriteEnds(site, w.chain, cp, to);
  }
}
