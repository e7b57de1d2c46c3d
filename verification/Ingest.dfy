/** Indexing a chain that may rewrite its history between steps (indexer/src/ingest.ts). */
module Ingest {
  import opened Common
  import opened Sorting
  import opened Projection
  import opened Store

  const MAX_RANGE: nat := 500
  const MAX_REWIND: nat := 64
  const FULL_RESET_WINDOW_MS: nat := 600_000

  // ----- the chain, as one step sees it

  datatype ChainLog = ChainLog(txHash: nat, logIndex: nat, address: nat, payload: nat)

  /** A block, with the logs of the deployment's contracts. */
  datatype Block = Block(hash: nat, timestamp: nat, logs: seq<ChainLog>)

  type Chain = seq<Block>

  datatype Decoded = Decoded(event: EventName, args: map<string, Value>)

  datatype FinalizeCall = FinalizeCall(batchId: Value, solutionHash: Value, solution: Value)

  /** One deployment: where it starts, how its logs decode, and the finalize call a transaction made, if it made one. */
  datatype Site = Site(
    chainId: nat, settlement: nat, fromBlock: nat, decode: ChainLog -> Option<Decoded>,
      finalize: nat -> Option<FinalizeCall>)

  function DecodedOf(site: Site, b: Block, n: nat, l: ChainLog): Option<DecodedLog>
  {
    match site.decode(l)
    case None => None
    case Some(d) =>
      Some(DecodedLog(site.chainId, site.settlement, n, b.hash, b.timestamp, l.txHash, l.logIndex, d.event, d.args))
  }

  function BlockLogs(site: Site, b: Block, n: nat, ls: seq<ChainLog>): seq<DecodedLog>
  {
    if ls == [] then []
    else
      var rest := BlockLogs(site, b, n, ls[..|ls| - 1]);
      match DecodedOf(site, b, n, ls[|ls| - 1]) case Some(d) => rest + [d] case None => rest
  }

  function BlockUndecoded(site: Site, n: nat, ls: seq<ChainLog>): seq<UndecodedLog>
  {
    if ls == [] then []
    else
      var rest, l := BlockUndecoded(site, n, ls[..|ls| - 1]), ls[|ls| - 1];
      if site.decode(l).None? then rest + [UndecodedLog(n, l.txHash, l.logIndex, l.address)] else rest
  }

  /** The decoded logs of blocks a up to but not including b. */
  function LogsBetween(site: Site, chain: Chain, a: nat, b: nat): seq<DecodedLog>
    requires b <= |chain|
  {
    if b <= a then [] else LogsBetween(site, chain, a, b - 1) + BlockLogs(site, chain[b - 1], b - 1, chain[b - 1].logs)
  }

  function UndecodedBetween(site: Site, chain: Chain, a: nat, b: nat): seq<UndecodedLog>
    requires b <= |chain|
  {
    if b <= a then [] else UndecodedBetween(site, chain, a, b - 1) + BlockUndecoded(site, b - 1, chain[b - 1].logs)
  }

  /** The blocks a range reads: its last one, and every other one that holds a log. */
  function LogBlocks(chain: Chain, a: nat, b: nat): (r: seq<BlockRow>)
    requires b <= |chain|
    ensures forall x :: x in r ==> a <= x.number < b && x.hash == chain[x.number].hash
  {
    if b <= a then []
    else
      var rest := LogBlocks(chain, a, b - 1);
      if chain[b - 1].logs == [] then rest else rest + [BlockRow(b - 1, chain[b - 1].hash)]
  }

  function BlocksRead(chain: Chain, a: nat, to: nat): seq<BlockRow>
    requires to < |chain|
  {
    [BlockRow(to, chain[to].hash)] + LogBlocks(chain, a, to)
  }

  // ----- batch_solutions from finalize calldata

  predicate Closing(l: DecodedLog) { l.event == BatchSettled || l.event == BatchPassthrough }

  function SolutionRow(l: DecodedLog, call: FinalizeCall): Row
  {
    map[Deployment := Number(l.deployment), BatchId := call.batchId, SolutionHash := call.solutionHash,
      SolutionJson := call.solution]
    + Provenance(l)
  }

  datatype Winning = Winning(ops: seq<Op>, seen: set<nat>)

  /** One op per finalizing transaction, at its first closing log. */
  function WinningSolutions(site: Site, logs: seq<DecodedLog>): Winning
  {
    if logs == [] then Winning([], {})
    else
      var before, l := WinningSolutions(site, logs[..|logs| - 1]), logs[|logs| - 1];
      if !Closing(l) || l.txHash in before.seen then before
      else match site.finalize(l.txHash)
        case None => before.(seen := before.seen + {l.txHash})
        case Some(call) =>
          Winning(before.ops + [Insert(BatchSolutions, SolutionRow(l, call))], before.seen + {l.txHash})
  }

  // ----- one step

  /** Where a read may fail for good: before anything is rolled back, while starting over, or before the new
      range is written. */
  datatype Fault = NoFault | BeforeRewind | DuringReset | BeforeCommit

  datatype StepError = ReadFailed | BlockMissing | SecondFullReset

  datatype StepResult = StepResult(from: nat, to: nat, logs: nat, undecoded: nat, rewoundTo: Option<nat>,
    fullReset: bool)

  datatype Indexer = Indexer(contents: Contents, lastFullReset: nat)

  datatype Conditions = Conditions(chain: Chain, now: nat, confirmations: nat, fault: Fault)

  function Initial(site: Site, chain: Chain): Option<Checkpoint>
    requires site.fromBlock > 0
  {
    var start := site.fromBlock - 1;
    if start < |chain| then Some(Checkpoint(site.fromBlock, start, chain[start].hash)) else None
  }

  function CheckpointOf(c: Contents, site: Site, chain: Chain): Option<Checkpoint>
    requires site.fromBlock > 0
  {
    if c.state.Some? then c.state else Initial(site, chain)
  }

  /** The chain has this block. */
  predicate Agrees(chain: Chain, number: nat, hash: nat) { number < |chain| && chain[number].hash == hash }

  /** The first of the stored blocks the chain still has. */
  function FirstAgreeing(stored: seq<BlockRow>, chain: Chain): Option<BlockRow>
  {
    if stored == [] then None
    else if Agrees(chain, stored[0].number, stored[0].hash) then Some(stored[0])
    else FirstAgreeing(stored[1..], chain)
  }

  datatype RewindResult = RewindResult(indexer: Indexer, result: Result<(nat, bool), StepError>)

  /** Ingest.rewind. */
  function RewindFrom(ix: Indexer, site: Site, w: Conditions, cp: Checkpoint): RewindResult
    requires site.fromBlock > 0
  {
    match FirstAgreeing(StoredBlocks(ix.contents.blocks, cp.lastBlock, MAX_REWIND), w.chain)
    case Some(s) =>
      RewindResult(ix.(contents := Rewind(ix.contents, site.settlement,
        cp.(lastBlock := s.number, lastHash := s.hash))), Ok((s.number, false)))
    case None =>
      if w.now < ix.lastFullReset + FULL_RESET_WINDOW_MS then RewindResult(ix, Err(SecondFullReset))
      else
        var marked := ix.(lastFullReset := w.now);
        if w.fault == DuringReset then RewindResult(marked, Err(ReadFailed))
        else match Initial(site, w.chain)
          case None => RewindResult(marked, Err(BlockMissing))
          case Some(anew) =>
            RewindResult(marked.(contents := Rewind(ix.contents, site.settlement, anew)), Ok((anew.lastBlock, true)))
  }

  function SafeHead(w: Conditions): nat
  {
    var head := if w.chain == [] then 0 else |w.chain| - 1;
    if head > w.confirmations then head - w.confirmations else 0
  }

  /** The commit of the range after a checkpoint. */
  function WriteOf(site: Site, chain: Chain, cp: Checkpoint, to: nat): StepWrite
    requires to < |chain|
  {
    var logs := LogsBetween(site, chain, cp.lastBlock + 1, to + 1);
    StepWrite(cp.(lastBlock := to, lastHash := chain[to].hash), BlocksRead(chain, cp.lastBlock + 1, to), logs,
      UndecodedBetween(site, chain, cp.lastBlock + 1, to + 1), WinningSolutions(site, logs).ops)
  }

  datatype StepOutcome = StepOutcome(indexer: Indexer, result: Result<StepResult, StepError>)

  /** The second half of a step, from a checkpoint the chain agrees with. */
  function Forward(ix: Indexer, site: Site, w: Conditions, cp: Checkpoint, rewoundTo: Option<nat>,
      fullReset: bool): StepOutcome
  {
    var head := SafeHead(w);
    var to := if head < cp.lastBlock + MAX_RANGE then head else cp.lastBlock + MAX_RANGE;
    if to < cp.lastBlock + 1 then
      StepOutcome(ix, Ok(StepResult(cp.lastBlock + 1, cp.lastBlock, 0, 0, rewoundTo, fullReset)))
    else if w.fault == BeforeCommit then StepOutcome(ix, Err(ReadFailed))
    else
      var write := WriteOf(site, w.chain, cp, to);
      StepOutcome(ix.(contents := Commit(ix.contents, write)),
        Ok(StepResult(cp.lastBlock + 1, to, |write.logs|, |write.undecoded|, rewoundTo, fullReset)))
  }

  /** Ingest.step. */
  function Step(ix: Indexer, site: Site, w: Conditions): StepOutcome
    requires site.fromBlock > 0
  {
    if w.fault == BeforeRewind then StepOutcome(ix, Err(ReadFailed))
    else match CheckpointOf(ix.contents, site, w.chain)
      case None => StepOutcome(ix, Err(BlockMissing))
      case Some(cp) =>
        if Agrees(w.chain, cp.lastBlock, cp.lastHash) then Forward(ix, site, w, cp, None, false)
        else
          var r := RewindFrom(ix, site, w, cp);
          match r.result
          case Err(e) => StepOutcome(r.indexer, Err(e))
          case Ok((to, full)) =>
            match CheckpointOf(r.indexer.contents, site, w.chain)
            case None => StepOutcome(r.indexer, Err(BlockMissing))
            case Some(after) => Forward(r.indexer, site, w, after, Some(to), full)
  }

  // ----- the class, over the store it writes

  class Ingest {
    const site: Site
    const confirmations: nat
    const store: MemoryStore
    var lastFullReset: nat

    constructor (site: Site, store: MemoryStore, confirmations: nat)
      ensures this.site == site && this.store == store && this.confirmations == confirmations && lastFullReset == 0
    {
      this.site, this.store, this.confirmations := site, store, confirmations;
      lastFullReset := 0;
    }

    function Now(): Indexer
      reads this, store
    {
      Indexer(store.Now(), lastFullReset)
    }

    predicate Ready()
    {
      site.fromBlock > 0 && store.deployment == site.settlement
    }

    method RewindStored(w: Conditions, cp: Checkpoint) returns (r: Result<(nat, bool), StepError>)
      requires Ready() && w.confirmations == confirmations
      modifies this, store
      ensures RewindResult(Now(), r) == RewindFrom(old(Now()), site, w, cp)
    {
      hide Rewind, StoredBlocks;
      var stored := StoredBlocks(store.blocks, cp.lastBlock, MAX_REWIND);
      for k := 0 to |stored|
        invariant FirstAgreeing(stored, w.chain) == FirstAgreeing(stored[k..], w.chain)
        invariant Now() == old(Now())
      {
        assert stored[k..][1..] == stored[k + 1..];
        var s := stored[k];
        if Agrees(w.chain, s.number, s.hash) {
          store.RewindTo(cp.(lastBlock := s.number, lastHash := s.hash));
          return Ok((s.number, false));
        }
      }
      if w.now < lastFullReset + FULL_RESET_WINDOW_MS {
        return Err(SecondFullReset);
      }
      lastFullReset := w.now;
      if w.fault == DuringReset {
        return Err(ReadFailed);
      }
      var anew := Initial(site, w.chain);
      if anew.None? {
        return Err(BlockMissing);
      }
      store.RewindTo(anew.value);
      r := Ok((anew.value.lastBlock, true));
    }

    method DoStep(w: Conditions) returns (r: Result<StepResult, StepError>)
      requires Ready() && w.confirmations == confirmations
      modifies this, store
      ensures StepOutcome(Now(), r) == Step(old(Now()), site, w)
    {
      hide RewindFrom, Commit, WriteOf;
      if w.fault == BeforeRewind {
        return Err(ReadFailed);
      }
      var cp := CheckpointOf(store.Now(), site, w.chain);
      if cp.None? {
        return Err(BlockMissing);
      }
      var rewoundTo, fullReset := None, false;
      if !Agrees(w.chain, cp.value.lastBlock, cp.value.lastHash) {
        var rewound := RewindStored(w, cp.value);
        if rewound.Err? {
          return Err(rewound.error);
        }
        rewoundTo, fullReset := Some(rewound.value.0), rewound.value.1;
        cp := CheckpointOf(store.Now(), site, w.chain);
        if cp.None? {
          return Err(BlockMissing);
        }
      }
      var head := SafeHead(w);
      var from := cp.value.lastBlock + 1;
      var to := if head < cp.value.lastBlock + MAX_RANGE then head else cp.value.lastBlock + MAX_RANGE;
      if to < from {
        return Ok(StepResult(from, cp.value.lastBlock, 0, 0, rewoundTo, fullReset));
      }
      if w.fault == BeforeCommit {
        return Err(ReadFailed);
      }
      var write := WriteOf(site, w.chain, cp.value, to);
      store.CommitStep(write);
      r := Ok(StepResult(from, to, |write.logs|, |write.undecoded|, rewoundTo, fullReset));
    }
  }
}
