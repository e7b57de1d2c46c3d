/** The logs that do not decode: kept beside the decoded ones, and rolled back with them (indexer/src/ingest.ts:246-254,
    indexer/src/store.ts:131-134, 153). */
module Undecoded {
  import opened Common
  import opened Store
  import opened Ingest
  import opened Canonical

  predicate SameUndecoded(a: UndecodedLog, b: UndecodedLog) { a.txHash == b.txHash && a.logIndex == b.logIndex }

  ghost predicate NoneTwice(us: seq<UndecodedLog>)
  {
    forall i, j :: 0 <= i < j < |us| ==> !SameUndecoded(us[i], us[j])
  }

  predicate UndecodedFrom(u: UndecodedLog, ls: seq<ChainLog>)
  {
    exists x :: x in ls && x.txHash == u.txHash && x.logIndex == u.logIndex
  }

  lemma {:induction false} BlockUndecodedFrom(site: Site, n: nat, ls: seq<ChainLog>)
    ensures forall u :: u in BlockUndecoded(site, n, ls) ==> u.blockNumber == n && UndecodedFrom(u, ls)
  {
    if ls != [] {
      var init, last := ls[..|ls| - 1], ls[|ls| - 1];
      BlockUndecodedFrom(site, n, init);
      forall u | u in BlockUndecoded(site, n, ls) ensures u.blockNumber == n && UndecodedFrom(u, ls) {
        if u in BlockUndecoded(site, n, init) {
          var x :| x in init && x.txHash == u.txHash && x.logIndex == u.logIndex;
          assert x in ls;
        } else {
          assert last in ls;
        }
      }
    }
  }

  lemma {:induction false} BlockUndecodedOnce(site: Site, n: nat, ls: seq<ChainLog>)
    requires IndicesRise(ls)
    ensures NoneTwice(BlockUndecoded(site, n, ls))
  {
    if ls != [] {
      var init, last := ls[..|ls| - 1], ls[|ls| - 1];
      BlockUndecodedOnce(site, n, init);
      BlockUndecodedFrom(site, n, init);
      var before := BlockUndecoded(site, n, init);
      forall u | u in before ensures u.logIndex < last.logIndex {
        var x :| x in init && x.txHash == u.txHash && x.logIndex == u.logIndex;
        var k :| 0 <= k < |init| && init[k] == x;
        assert ls[k].logIndex < ls[|ls| - 1].logIndex;
      }
      assert forall k :: 0 <= k < |before| ==> before[k] in before;
    }
  }

  /** Where an undecoded log of a range comes from. */
  lemma {:induction false} RangeFrom(site: Site, chain: Chain, a: nat, b: nat, u: UndecodedLog)
    requires b <= |chain| && u in UndecodedBetween(site, chain, a, b)
    ensures a <= u.blockNumber < b && UndecodedFrom(u, chain[u.blockNumber].logs)
  {
    hide BlockUndecoded, UndecodedFrom;
    if u in BlockUndecoded(site, b - 1, chain[b - 1].logs) {
      BlockUndecodedFrom(site, b - 1, chain[b - 1].logs);
    } else {
      RangeFrom(site, chain, a, b - 1, u);
    }
  }

  lemma AcrossUndecoded(chain: Chain, x: UndecodedLog, y: UndecodedLog, m: nat, n: nat)
    requires ChainOk(chain) && m < n < |chain|
    requires UndecodedFrom(x, chain[m].logs) && UndecodedFrom(y, chain[n].logs)
    ensures !SameUndecoded(x, y)
  {
    var p :| p in chain[m].logs && p.txHash == x.txHash && p.logIndex == x.logIndex;
    var q :| q in chain[n].logs && q.txHash == y.txHash && q.logIndex == y.logIndex;
    var i :| 0 <= i < |chain[m].logs| && chain[m].logs[i] == p;
    var j :| 0 <= j < |chain[n].logs| && chain[n].logs[j] == q;
  }

  /** No undecoded log of a range comes twice. */
  lemma {:induction false} UndecodedOnce(site: Site, chain: Chain, a: nat, b: nat)
    requires b <= |chain| && ChainOk(chain)
    ensures NoneTwice(UndecodedBetween(site, chain, a, b))
  {
    hide BlockUndecoded, UndecodedFrom, NoneTwice, SameUndecoded;
    if b <= a {
      NoneTwiceEmpty();
    } else {
      var before, last := UndecodedBetween(site, chain, a, b - 1), BlockUndecoded(site, b - 1, chain[b - 1].logs);
      UndecodedOnce(site, chain, a, b - 1);
      BlockUndecodedOnce(site, b - 1, chain[b - 1].logs);
      BlockUndecodedFrom(site, b - 1, chain[b - 1].logs);
      forall x, y | x in before && y in last ensures !SameUndecoded(x, y) {
        RangeFrom(site, chain, a, b - 1, x);
        AcrossUndecoded(chain, x, y, x.blockNumber, b - 1);
      }
      NoneTwiceJoined(before, last);
    }
  }

  lemma NoneTwiceEmpty()
    ensures NoneTwice([])
  {
  }

  lemma NoneTwiceJoined(xs: seq<UndecodedLog>, ys: seq<UndecodedLog>)
    requires NoneTwice(xs) && NoneTwice(ys)
    requires forall x, y :: x in xs && y in ys ==> !SameUndecoded(x, y)
    ensures NoneTwice(xs + ys)
  {
    forall i, j | 0 <= i < j < |xs + ys| ensures !SameUndecoded((xs + ys)[i], (xs + ys)[j]) {
      if i < |xs| <= j { assert xs[i] in xs && ys[j - |xs|] in ys; }
      if i >= |xs| { assert (xs + ys)[i] == ys[i - |xs|] && (xs + ys)[j] == ys[j - |xs|]; }
    }
  }

  /** New undecoded logs are appended as they come. */
  lemma {:induction false} UndecodedAppend(us: seq<UndecodedLog>, more: seq<UndecodedLog>)
    requires NoneTwice(us + more)
    ensures AddUndecoded(us, more) == us + more
  {
    if more == [] {
      assert us + more == us;
    } else {
      var init, last := more[..|more| - 1], more[|more| - 1];
      var before := us + init;
      assert us + more == before + [last];
      forall i, j | 0 <= i < j < |before| ensures !SameUndecoded(before[i], before[j]) {
        assert (us + more)[i] == before[i] && (us + more)[j] == before[j];
      }
      UndecodedAppend(us, init);
      forall r | r in before ensures !SameUndecoded(r, last) {
        var k :| 0 <= k < |before| && before[k] == r;
        assert (us + more)[k] == r && (us + more)[|before|] == last;
      }
    }
  }

  /** Dropping the undecoded logs above a block leaves the range up to it. */
  lemma {:induction false} UndecodedRewind(site: Site, chain: Chain, a: nat, b: nat, n: nat)
    requires b <= |chain|
    ensures Filter(UndecodedBetween(site, chain, a, b), UndecodedUpTo(n)) ==
      UndecodedBetween(site, chain, a, if n + 1 < b then n + 1 else b)
  {
    hide Filter, BlockUndecoded, UndecodedFrom;
    if b <= n + 1 {
      forall u | u in UndecodedBetween(site, chain, a, b) ensures UndecodedUpTo(n)(u) {
        RangeFrom(site, chain, a, b, u);
      }
      FilterAll(UndecodedBetween(site, chain, a, b), UndecodedUpTo(n));
    } else if b <= a {
      NothingFiltered(UndecodedUpTo(n));
    } else {
      UndecodedRewind(site, chain, a, b - 1, n);
      var before, last := UndecodedBetween(site, chain, a, b - 1), BlockUndecoded(site, b - 1, chain[b - 1].logs);
      BlockUndecodedFrom(site, b - 1, chain[b - 1].logs);
      FilterNone(last, UndecodedUpTo(n));
      FilterAppend(before, last, UndecodedUpTo(n));
      assert Filter(before, UndecodedUpTo(n)) + [] == Filter(before, UndecodedUpTo(n));
    }
  }
}
