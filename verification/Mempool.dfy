/** The intent mempool: three maps changed by admission, withdrawal and a sweep by time (api/src/mempool.ts). */
module Mempool {
  import opened Common

  const SOLUTION_WINDOW: int := 10
  const FINALIZE_DEADLINE: int := 300
  const STATUS_RETENTION: int := 86_400

  /** An intent as signed. Owner and nonce by value, so that spelling plays no part. */
  datatype Signed = Signed(hash: nat, owner: nat, nonce: nat, sellToken: nat, sellAmount: nat, validUntil: int)

  datatype Status = Pending | Expired | Rejected

  datatype Stored = Stored(batchId: nat, signed: Signed, status: Status)

  datatype Held = Held(hash: nat, validUntil: int)

  datatype Pool = Pool(
    byBatch: map<nat, seq<Signed>>, byHash: map<nat, Stored>, byOwnerNonce: map<(nat, nat), Held>,
      withdrawn: map<nat, seq<nat>>)

  function EmptyPool(): Pool { Pool(map[], map[], map[], map[]) }

  function KeyOf(s: Signed): (nat, nat) { (s.owner, s.nonce) }

  datatype AdmitError = DuplicateHash | DuplicateNonce(hash: nat)

  // ----- what each operation does

  function ListOf(m: map<nat, seq<Signed>>, batchId: nat): seq<Signed>
  {
    if batchId in m then m[batchId] else []
  }

  datatype Admission = Admission(pool: Pool, result: Result<(), AdmitError>)

  function Admit(p: Pool, s: Signed, batchId: nat): Admission
  {
    if s.hash in p.byHash then Admission(p, Err(DuplicateHash))
    else if KeyOf(s) in p.byOwnerNonce then Admission(p, Err(DuplicateNonce(p.byOwnerNonce[KeyOf(s)].hash)))
    else Admission(
      p.(byOwnerNonce := p.byOwnerNonce[KeyOf(s) := Held(s.hash, s.validUntil)],
         byHash := p.byHash[s.hash := Stored(batchId, s, Pending)],
         byBatch := p.byBatch[batchId := ListOf(p.byBatch, batchId) + [s]]),
      Ok(()))
  }

  /** The list without the first entry of this hash. */
  function RemoveFirst(list: seq<Signed>, hash: nat): seq<Signed>
  {
    if list == [] then []
    else if list[0].hash == hash then list[1..]
    else [list[0]] + RemoveFirst(list[1..], hash)
  }

  function Withdraw(p: Pool, hash: nat): Pool
  {
    if hash !in p.byHash || p.byHash[hash].status != Pending then p
    else
      var stored := p.byHash[hash];
      var key := KeyOf(stored.signed);
      p.(byHash := p.byHash[hash := stored.(status := Rejected)],
         byBatch := if stored.batchId in p.byBatch
           then p.byBatch[stored.batchId := RemoveFirst(p.byBatch[stored.batchId], hash)] else p.byBatch,
         withdrawn := p.withdrawn[stored.batchId := (if stored.batchId in p.withdrawn
           then p.withdrawn[stored.batchId] else []) + [hash]],
         byOwnerNonce := if key in p.byOwnerNonce
           && p.byOwnerNonce[key].hash == hash then p.byOwnerNonce - {key} else p.byOwnerNonce)
  }

  predicate BatchOver(batchId: nat, now: int) { now > batchId + SOLUTION_WINDOW + FINALIZE_DEADLINE }

  predicate Lists(list: seq<Signed>, hash: nat) { exists s :: s in list && s.hash == hash }

  /** Some batch that is over lists the hash. */
  predicate InOverBatch(byBatch: map<nat, seq<Signed>>, hash: nat, now: int)
  {
    exists b :: b in byBatch && BatchOver(b, now) && Lists(byBatch[b], hash)
  }

  function Aged(stored: Stored, over: bool): Stored
  {
    if over && stored.status == Pending then stored.(status := Expired) else stored
  }

  predicate Forgotten(stored: Stored, now: int)
  {
    now > stored.batchId + SOLUTION_WINDOW + FINALIZE_DEADLINE + STATUS_RETENTION
  }

  function Sweep(p: Pool, now: int): Pool
  {
    Pool(
      map b | b in p.byBatch && !BatchOver(b, now) :: p.byBatch[b],
      map h | h in p.byHash && !Forgotten(p.byHash[h], now) :: Aged(p.byHash[h], InOverBatch(p.byBatch, h, now)),
      map k | k in p.byOwnerNonce && now <= p.byOwnerNonce[k].validUntil :: p.byOwnerNonce[k],
      map b | b in p.withdrawn && !(b in p.byBatch && BatchOver(b, now)) :: p.withdrawn[b])
  }

  // ----- the module's maps

  class Memory {
    var byBatch: map<nat, seq<Signed>>
    var byHash: map<nat, Stored>
    var byOwnerNonce: map<(nat, nat), Held>
    var withdrawn: map<nat, seq<nat>>

    constructor ()
      ensures Now() == EmptyPool()
    {
      byBatch, byHash, byOwnerNonce, withdrawn := map[], map[], map[], map[];
    }

    function Now(): Pool
      reads this
    {
      Pool(byBatch, byHash, byOwnerNonce, withdrawn)
    }

    method AdmitIntent(s: Signed, batchId: nat) returns (r: Result<(), AdmitError>)
      modifies this
      ensures Admission(Now(), r) == Admit(old(Now()), s, batchId)
    {
      if s.hash in byHash {
        return Err(DuplicateHash);
      }
      if KeyOf(s) in byOwnerNonce {
        return Err(DuplicateNonce(byOwnerNonce[KeyOf(s)].hash));
      }
      byOwnerNonce := byOwnerNonce[KeyOf(s) := Held(s.hash, s.validUntil)];
      byHash := byHash[s.hash := Stored(batchId, s, Pending)];
      byBatch := byBatch[batchId := ListOf(byBatch, batchId) + [s]];
      r := Ok(());
    }

    method WithdrawIntent(hash: nat)
      modifies this
      ensures Now() == Withdraw(old(Now()), hash)
    {
      if hash !in byHash || byHash[hash].status != Pending {
        return;
      }
      var stored := byHash[hash];
      byHash := byHash[hash := stored.(status := Rejected)];
      if stored.batchId in byBatch {
        byBatch := byBatch[stored.batchId := RemoveFirst(byBatch[stored.batchId], hash)];
      }
      var gone := if stored.batchId in withdrawn then withdrawn[stored.batchId] else [];
      withdrawn := withdrawn[stored.batchId := gone + [hash]];
      var key := KeyOf(stored.signed);
      if key in byOwnerNonce && byOwnerNonce[key].hash == hash {
        byOwnerNonce := byOwnerNonce - {key};
      }
    }

    /** One batch that is over: its lists go and its pending intents expire. */
    method ExpireBatch(batchId: nat)
      requires batchId in byBatch
      modifies this
      ensures byBatch == old(byBatch) - {batchId} && withdrawn == old(withdrawn) - {batchId}
        && byOwnerNonce == old(byOwnerNonce)
      ensures byHash == map h | h in old(byHash) :: Aged(old(byHash)[h], Lists(old(byBatch)[batchId], h))
    {
      var list := byBatch[batchId];
      byBatch, withdrawn := byBatch - {batchId}, withdrawn - {batchId};
      ghost var before := byHash;
      for k := 0 to |list|
        invariant byBatch == old(byBatch) - {batchId} && withdrawn == old(withdrawn) - {batchId}
          && byOwnerNonce == old(byOwnerNonce)
        invariant byHash == map h | h in before :: Aged(before[h], Lists(list[..k], h))
      {
        var h := list[k].hash;
        ListsStep(list, k);
        if h in byHash && byHash[h].status == Pending {
          byHash := byHash[h := byHash[h].(status := Expired)];
        }
      }
      assert list[..|list|] == list;
    }

    /** The first pass of sweep, batch by batch. */
    method ExpireBatches(now: int)
      modifies this
      ensures Now() == PartlySwept(old(Now()), {}, now)
    {
      ghost var p := Now();
      var batches := byBatch.Keys;
      NothingSwept(p, now);
      while batches != {}
        invariant batches <= byBatch.Keys && batches <= p.byBatch.Keys
        invariant forall b :: b in batches ==> byBatch[b] == p.byBatch[b]
        invariant Now() == PartlySwept(p, batches, now)
        decreases batches
      {
        var b :| b in batches;
        SweptStep(p, batches, b, now);
        hide PartlySwept, BatchOver;
        batches := batches - {b};
        if BatchOver(b, now) {
          ExpireBatch(b);
        }
      }
    }

    /** sweep: the batches that are over, then the nonces past their validity, then the statuses past retention. */
    method SweepAt(now: int)
      modifies this
      ensures Now() == Sweep(old(Now()), now)
    {
      ghost var p := Now();
      ExpireBatches(now);
      byOwnerNonce := map k | k in byOwnerNonce && now <= byOwnerNonce[k].validUntil :: byOwnerNonce[k];
      byHash := map h | h in byHash && !Forgotten(byHash[h], now) :: byHash[h];
      SweptWhole(p, now);
    }
  }

  /** The pending entries of one batch for an owner and token. */
  function CommittedIn(p: Pool, batchId: nat, list: seq<Signed>, owner: nat, sellToken: nat): seq<(Signed, nat)>
  {
    if list == [] then []
    else
      var rest, s := CommittedIn(p, batchId, list[..|list| - 1], owner, sellToken), list[|list| - 1];
      if s.owner == owner && s.sellToken == sellToken && s.hash in p.byHash && p.byHash[s.hash].status == Pending
      then rest + [(s, batchId)] else rest
  }

  lemma {:induction false} CommittedInExact(p: Pool, batchId: nat, list: seq<Signed>, owner: nat, sellToken: nat)
    ensures forall c :: c in CommittedIn(p, batchId, list, owner, sellToken) <==>
      && c.1 == batchId && c.0 in list && c.0.owner == owner && c.0.sellToken == sellToken
      && c.0.hash in p.byHash && p.byHash[c.0.hash].status == Pending
  {
    if list != [] {
      CommittedInExact(p, batchId, list[..|list| - 1], owner, sellToken);
      assert forall s :: s in list <==> s in list[..|list| - 1] || s == list[|list| - 1];
    }
  }

  /** committed: the loop over the batches, which the map gives in some order. */
  method Committed(p: Pool, owner: nat, sellToken: nat) returns (out: seq<(Signed, nat)>)
    ensures forall c :: c in out <==>
      && c.1 in p.byBatch && c.0 in p.byBatch[c.1] && c.0.owner == owner && c.0.sellToken == sellToken
      && c.0.hash in p.byHash && p.byHash[c.0.hash].status == Pending
  {
    out := [];
    var batches := p.byBatch.Keys;
    while batches != {}
      invariant batches <= p.byBatch.Keys
      invariant forall c :: c in out <==>
        && c.1 in p.byBatch && c.1 !in batches && c.0 in p.byBatch[c.1] && c.0.owner == owner
          && c.0.sellToken == sellToken
        && c.0.hash in p.byHash && p.byHash[c.0.hash].status == Pending
      decreases batches
    {
      var b :| b in batches;
      CommittedInExact(p, b, p.byBatch[b], owner, sellToken);
      out := out + CommittedIn(p, b, p.byBatch[b], owner, sellToken);
      batches := batches - {b};
    }
  }

  /** The pool with the batches outside `left` swept, and nothing else yet. */
  ghost function PartlySwept(p: Pool, left: set<nat>, now: int): Pool
  {
    Pool(
      map b | b in p.byBatch && (b in left || !BatchOver(b, now)) :: p.byBatch[b],
      map h | h in p.byHash :: Aged(p.byHash[h], DoneBatch(p.byBatch, left, h, now)),
      p.byOwnerNonce,
      map b | b in p.withdrawn && !(b in p.byBatch && b !in left && BatchOver(b, now)) :: p.withdrawn[b])
  }

  lemma NothingSwept(p: Pool, now: int)
    ensures PartlySwept(p, p.byBatch.Keys, now) == p
  {
    var q := PartlySwept(p, p.byBatch.Keys, now);
    assert q.byBatch == p.byBatch && q.byHash == p.byHash && q.withdrawn == p.withdrawn;
  }

  lemma SweptStep(p: Pool, left: set<nat>, b: nat, now: int)
    requires b in left && left <= p.byBatch.Keys
    ensures var before, after := PartlySwept(p, left, now), PartlySwept(p, left - {b}, now);
      && after.byOwnerNonce == before.byOwnerNonce
      && b in before.byBatch && before.byBatch[b] == p.byBatch[b]
      && (if BatchOver(b, now) then
            && after.byBatch == before.byBatch - {b} && after.withdrawn == before.withdrawn - {b}
            && after.byHash == map h | h in before.byHash :: Aged(before.byHash[h], Lists(before.byBatch[b], h))
          else after == before)
  {
    SweptStatuses(p, left, b, now);
    hide DoneBatch, Lists, BatchOver;
    var before, after := PartlySwept(p, left, now), PartlySwept(p, left - {b}, now);
    if BatchOver(b, now) {
      assert after.byBatch == before.byBatch - {b};
      assert after.withdrawn == before.withdrawn - {b};
    } else {
      assert after.byBatch == before.byBatch && after.withdrawn == before.withdrawn;
    }
  }

  lemma SweptStatuses(p: Pool, left: set<nat>, b: nat, now: int)
    requires b in left && left <= p.byBatch.Keys
    ensures var before, after := PartlySwept(p, left, now), PartlySwept(p, left - {b}, now);
      if BatchOver(b, now) then after.byHash == map h | h in before.byHash ::
        Aged(before.byHash[h], Lists(p.byBatch[b], h))
      else after.byHash == before.byHash
  {
    var before, after := PartlySwept(p, left, now), PartlySwept(p, left - {b}, now);
    forall h | h in p.byHash
      ensures DoneBatch(p.byBatch, left - {b}, h, now) <==>
        DoneBatch(p.byBatch, left, h, now) || (BatchOver(b, now) && Lists(p.byBatch[b], h))
    {
      OneMoreBatch(p.byBatch, left, b, h, now);
    }
    hide DoneBatch, Lists, BatchOver;
    if BatchOver(b, now) {
      assert after.byHash == map h | h in before.byHash :: Aged(before.byHash[h], Lists(p.byBatch[b], h));
    } else {
      assert after.byHash == before.byHash;
    }
  }

  lemma SweptWhole(p: Pool, now: int)
    ensures var q := PartlySwept(p, {}, now);
      Sweep(p, now) == q.(
        byOwnerNonce := map k | k in q.byOwnerNonce && now <= q.byOwnerNonce[k].validUntil :: q.byOwnerNonce[k],
        byHash := map h | h in q.byHash && !Forgotten(q.byHash[h], now) :: q.byHash[h])
  {
    SweptHashes(p, now);
    hide DoneBatch, InOverBatch, Lists, BatchOver, Forgotten;
    var q := PartlySwept(p, {}, now);
    assert Sweep(p, now).byBatch == q.byBatch && Sweep(p, now).withdrawn == q.withdrawn;
    assert Sweep(p, now).byOwnerNonce == map k | k in q.byOwnerNonce && now <= q.byOwnerNonce[k].validUntil ::
      q.byOwnerNonce[k];
  }

  lemma SweptHashes(p: Pool, now: int)
    ensures var q := PartlySwept(p, {}, now);
      Sweep(p, now).byHash == map h | h in q.byHash && !Forgotten(q.byHash[h], now) :: q.byHash[h]
  {
    forall h | h in p.byHash ensures DoneBatch(p.byBatch, {}, h, now) == InOverBatch(p.byBatch, h, now) {
    }
    hide DoneBatch, InOverBatch, Lists, BatchOver;
  }

  lemma ListsStep(list: seq<Signed>, k: nat)
    requires k < |list|
    ensures forall h :: Lists(list[..k + 1], h) <==> Lists(list[..k], h) || list[k].hash == h
  {
    forall h ensures Lists(list[..k + 1], h) <==> Lists(list[..k], h) || list[k].hash == h {
      if Lists(list[..k], h) {
        var s :| s in list[..k] && s.hash == h;
        assert s in list[..k + 1];
      }
      assert list[k] in list[..k + 1];
    }
  }

  /** A batch that is over and already handled lists the hash. */
  ghost predicate DoneBatch(byBatch: map<nat, seq<Signed>>, left: set<nat>, hash: nat, now: int)
  {
    exists b :: b in byBatch && b !in left && BatchOver(b, now) && Lists(byBatch[b], hash)
  }

  lemma OneMoreBatch(byBatch: map<nat, seq<Signed>>, left: set<nat>, b: nat, hash: nat, now: int)
    requires b in left && b in byBatch
    ensures DoneBatch(byBatch, left - {b}, hash, now) <==>
      DoneBatch(byBatch, left, hash, now) || (BatchOver(b, now) && Lists(byBatch[b], hash))
  {
    if DoneBatch(byBatch, left, hash, now) {
      var c :| c in byBatch && c !in left && BatchOver(c, now) && Lists(byBatch[c], hash);
      assert c !in left - {b};
    }
  }

  // ----- every run

  /** An entry of a batch's list is that batch's pending intent. */
  ghost predicate ListsArePending(p: Pool)
  {
    forall b, s :: b in p.byBatch && s in p.byBatch[b] ==>
      s.hash in p.byHash && p.byHash[s.hash] == Stored(b, s, Pending)
  }

  /** A pending intent is an entry of its batch's list. */
  ghost predicate PendingIsListed(p: Pool)
  {
    forall h :: h in p.byHash ==>
      && p.byHash[h].signed.hash == h
      && (p.byHash[h].status == Pending ==>
        p.byHash[h].batchId in p.byBatch && p.byHash[h].signed in p.byBatch[p.byHash[h].batchId])
  }

  ghost predicate ListedOnce(p: Pool)
  {
    forall b :: b in p.byBatch ==> DistinctHashes(p.byBatch[b])
  }

  ghost predicate DistinctHashes(list: seq<Signed>)
  {
    forall j, k :: 0 <= j < k < |list| ==> list[j].hash != list[k].hash
  }

  /** A pending intent still inside its validity at the last sweep holds its own owner and nonce entry. */
  ghost predicate NoncesHeld(p: Pool, swept: Option<int>)
  {
    forall h :: h in p.byHash && p.byHash[h].status == Pending && Live(p.byHash[h].signed, swept) ==>
      && KeyOf(p.byHash[h].signed) in p.byOwnerNonce
      && p.byOwnerNonce[KeyOf(p.byHash[h].signed)] == Held(h, p.byHash[h].signed.validUntil)
  }

  predicate Live(s: Signed, swept: Option<int>)
  {
    swept.None? || swept.value <= s.validUntil
  }

  /** The lists and the statuses agree. */
  ghost predicate Listed(p: Pool) { ListsArePending(p) && PendingIsListed(p) && ListedOnce(p) }

  ghost predicate Inv(p: Pool, swept: Option<int>) { Listed(p) && NoncesHeld(p, swept) }

  lemma AdmitKeeps(p: Pool, s: Signed, batchId: nat, swept: Option<int>)
    requires Inv(p, swept)
    ensures Inv(Admit(p, s, batchId).pool, swept)
  {
    AdmitListed(p, s, batchId);
  }

  lemma AdmitListed(p: Pool, s: Signed, batchId: nat)
    requires Listed(p)
    ensures Listed(Admit(p, s, batchId).pool)
  {
    if Admit(p, s, batchId).result.Ok? {
      var before := ListOf(p.byBatch, batchId);
      forall x | x in before ensures x.hash != s.hash {
        assert x in p.byBatch[batchId];
      }
      assert forall x :: x in before + [s] <==> x in before || x == s;
      AdmitLists(p, s, batchId);
    }
  }

  lemma AdmitLists(p: Pool, s: Signed, batchId: nat)
    requires ListsArePending(p) && ListedOnce(p) && Admit(p, s, batchId).result.Ok?
    requires forall x :: x in ListOf(p.byBatch, batchId) ==> x.hash != s.hash
    ensures ListsArePending(Admit(p, s, batchId).pool) && ListedOnce(Admit(p, s, batchId).pool)
  {
    var q, before := Admit(p, s, batchId).pool, ListOf(p.byBatch, batchId);
    forall j, k | 0 <= j < k < |before + [s]| ensures (before + [s])[j].hash != (before + [s])[k].hash {
      assert before[j] in before;
    }
    forall b, x | b in q.byBatch && x in q.byBatch[b]
      ensures x.hash in q.byHash && q.byHash[x.hash] == Stored(b, x, Pending) {
      assert x == s || (b in p.byBatch && x in p.byBatch[b]);
    }
  }

  lemma {:induction false} RemoveFirstFacts(list: seq<Signed>, hash: nat)
    requires DistinctHashes(list)
    ensures DistinctHashes(RemoveFirst(list, hash))
    ensures forall s :: s in RemoveFirst(list, hash) <==> s in list && s.hash != hash
  {
    if list == [] {
    } else if list[0].hash == hash {
      forall s | s in list ensures s in list[1..] <==> s.hash != hash {
        if s in list[1..] {
          var k :| 0 <= k < |list[1..]| && list[1..][k] == s;
          assert list[k + 1] == s;
        }
      }
    } else {
      RemoveFirstFacts(list[1..], hash);
      var rest := RemoveFirst(list[1..], hash);
      forall k | 0 <= k < |rest| ensures rest[k].hash != list[0].hash {
        assert rest[k] in list[1..];
        var j :| 0 <= j < |list[1..]| && list[1..][j] == rest[k];
        assert list[j + 1] == rest[k];
      }
    }
  }

  lemma WithdrawKeeps(p: Pool, hash: nat, swept: Option<int>)
    requires Inv(p, swept)
    ensures Inv(Withdraw(p, hash), swept)
  {
    hide Listed, RemoveFirst;
    WithdrawListed(p, hash);
    if hash in p.byHash && p.byHash[hash].status == Pending {
      OthersHeld(p, hash, swept);
    }
  }

  lemma WithdrawListed(p: Pool, hash: nat)
    requires Listed(p)
    ensures Listed(Withdraw(p, hash))
  {
    if hash in p.byHash && p.byHash[hash].status == Pending {
      var q, stored := Withdraw(p, hash), p.byHash[hash];
      RemoveFirstFacts(p.byBatch[stored.batchId], hash);
      hide RemoveFirst;
      assert ListsArePending(q);
      assert PendingIsListed(q);
      assert ListedOnce(q);
    }
  }

  /** Withdrawing one intent releases no other live one's nonce. */
  lemma OthersHeld(p: Pool, hash: nat, swept: Option<int>)
    requires Inv(p, swept) && hash in p.byHash && p.byHash[hash].status == Pending
    ensures NoncesHeld(Withdraw(p, hash), swept)
  {
    var q := Withdraw(p, hash);
    forall h | h in q.byHash && q.byHash[h].status == Pending && Live(q.byHash[h].signed, swept)
      ensures KeyOf(q.byHash[h].signed) in q.byOwnerNonce
        && q.byOwnerNonce[KeyOf(q.byHash[h].signed)] == Held(h, q.byHash[h].signed.validUntil)
    {
      assert h != hash && p.byHash[h] == q.byHash[h];
    }
  }

  predicate NotBefore(now: int, swept: Option<int>) { swept.None? || swept.value <= now }

  lemma SweepKeeps(p: Pool, now: int, swept: Option<int>)
    requires Inv(p, swept) && NotBefore(now, swept)
    ensures Inv(Sweep(p, now), Some(now))
  {
    hide Listed, InOverBatch;
    SweepListed(p, now);
  }

  lemma SweepListed(p: Pool, now: int)
    requires Listed(p)
    ensures Listed(Sweep(p, now))
    ensures forall h :: h in p.byHash && p.byHash[h].status == Pending ==>
      (InOverBatch(p.byBatch, h, now) <==> BatchOver(p.byHash[h].batchId, now))
  {
    var q := Sweep(p, now);
    forall h | h in p.byHash && p.byHash[h].status == Pending
      ensures InOverBatch(p.byBatch, h, now) <==> BatchOver(p.byHash[h].batchId, now)
    {
      if InOverBatch(p.byBatch, h, now) {
        var b :| b in p.byBatch && BatchOver(b, now) && Lists(p.byBatch[b], h);
        var s :| s in p.byBatch[b] && s.hash == h;
      }
      if BatchOver(p.byHash[h].batchId, now) {
        assert p.byHash[h].signed in p.byBatch[p.byHash[h].batchId];
        assert Lists(p.byBatch[p.byHash[h].batchId], h);
      }
    }
    hide InOverBatch, Lists;
    SweptLists(p, q, now);
  }

  lemma SweptLists(p: Pool, q: Pool, now: int)
    requires ListsArePending(p) && PendingIsListed(p) && ListedOnce(p) && q == Sweep(p, now)
    requires forall h :: h in p.byHash && p.byHash[h].status == Pending ==>
      (InOverBatch(p.byBatch, h, now) <==> BatchOver(p.byHash[h].batchId, now))
    ensures ListsArePending(q) && PendingIsListed(q) && ListedOnce(q)
  {
    hide InOverBatch, Lists;
    forall b, s | b in q.byBatch && s in q.byBatch[b]
      ensures s.hash in q.byHash && q.byHash[s.hash] == Stored(b, s, Pending) {
      assert p.byHash[s.hash] == Stored(b, s, Pending);
    }
  }

  datatype Event = Admits(signed: Signed, batchId: nat) | Withdraws(hash: nat) | Sweeps(now: int)

  function Step(p: Pool, e: Event): Pool
  {
    match e
    case Admits(s, batchId) => Admit(p, s, batchId).pool
    case Withdraws(hash) => Withdraw(p, hash)
    case Sweeps(now) => Sweep(p, now)
  }

  function Run(events: seq<Event>): Pool
  {
    if events == [] then EmptyPool() else Step(Run(events[..|events| - 1]), events[|events| - 1])
  }

  function LastSwept(events: seq<Event>): Option<int>
  {
    if events == [] then None
    else if events[|events| - 1].Sweeps? then Some(events[|events| - 1].now)
    else LastSwept(events[..|events| - 1])
  }

  /** Sweeps come at times that never fall. */
  predicate SweepsRise(events: seq<Event>)
  {
    if events == [] then true
    else
      var init, e := events[..|events| - 1], events[|events| - 1];
      SweepsRise(init) && (e.Sweeps? ==> NotBefore(e.now, LastSwept(init)))
  }

  /** Over every run: an intent is pending exactly when its batch lists it, and a pending intent inside its validity
      holds its own nonce. */
  lemma {:induction false} RunKeeps(events: seq<Event>)
    requires SweepsRise(events)
    ensures Inv(Run(events), LastSwept(events))
  {
    if events != [] {
      var init, e := events[..|events| - 1], events[|events| - 1];
      RunKeeps(init);
      hide Inv, Admit, Withdraw, Sweep;
      match e
      case Admits(s, batchId) => AdmitKeeps(Run(init), s, batchId, LastSwept(init));
      case Withdraws(hash) => WithdrawKeeps(Run(init), hash, LastSwept(init));
      case Sweeps(now) => SweepKeeps(Run(init), now, LastSwept(init));
    }
  }

  /** No two pending intents of one owner and nonce are both inside their validity. */
  lemma LiveNoncesDiffer(events: seq<Event>, h: nat, k: nat)
    requires SweepsRise(events)
    requires h in Run(events).byHash && k in Run(events).byHash && h != k
    requires Run(events).byHash[h].status == Pending == Run(events).byHash[k].status
    requires KeyOf(Run(events).byHash[h].signed) == KeyOf(Run(events).byHash[k].signed)
    ensures !Live(Run(events).byHash[h].signed, LastSwept(events))
      || !Live(Run(events).byHash[k].signed, LastSwept(events))
  {
    RunKeeps(events);
    hide Run;
  }

  /** The pending intents of an owner and token are exactly the listed ones. */
  lemma PendingExactly(events: seq<Event>, s: Signed, batchId: nat)
    requires SweepsRise(events)
    ensures var p := Run(events);
      (batchId in p.byBatch && s in p.byBatch[batchId]) <==>
        (s.hash in p.byHash && p.byHash[s.hash] == Stored(batchId, s, Pending))
  {
    RunKeeps(events);
    hide Run;
  }

  // ----- one nonce, two pending intents

  /** The signature can still settle for as long as its batch is held. */
  predicate Outlives(s: Signed, batchId: nat)
  {
    s.validUntil >= batchId + SOLUTION_WINDOW + FINALIZE_DEADLINE
  }

  /** A pending intent that outlives its batch holds its own owner and nonce entry. */
  ghost predicate OutlivingHeld(p: Pool)
  {
    forall h :: h in p.byHash && p.byHash[h].status == Pending && Outlives(p.byHash[h].signed, p.byHash[h].batchId) ==>
      && KeyOf(p.byHash[h].signed) in p.byOwnerNonce
      && p.byOwnerNonce[KeyOf(p.byHash[h].signed)] == Held(h, p.byHash[h].signed.validUntil)
  }

  /** A sweep that leaves such an intent pending has not reached the end of its validity. */
  lemma SweepHolds(p: Pool, now: int)
    requires ListsArePending(p) && PendingIsListed(p) && OutlivingHeld(p)
    ensures OutlivingHeld(Sweep(p, now))
  {
    var q := Sweep(p, now);
    forall h | h in q.byHash && q.byHash[h].status == Pending && Outlives(q.byHash[h].signed, q.byHash[h].batchId)
      ensures KeyOf(q.byHash[h].signed) in q.byOwnerNonce
      ensures q.byOwnerNonce[KeyOf(q.byHash[h].signed)] == Held(h, q.byHash[h].signed.validUntil)
    {
      var stored := p.byHash[h];
      assert stored.signed in p.byBatch[stored.batchId];
      assert Lists(p.byBatch[stored.batchId], h);
      assert !BatchOver(stored.batchId, now);
    }
  }

  lemma {:induction false} RunHolds(events: seq<Event>)
    requires SweepsRise(events)
    ensures OutlivingHeld(Run(events))
  {
    if events != [] {
      var init, e := events[..|events| - 1], events[|events| - 1];
      RunHolds(init);
      RunKeeps(init);
      hide OutlivingHeld, Step, SweepsRise;
      StepHolds(Run(init), e);
    }
  }

  lemma StepHolds(p: Pool, e: Event)
    requires Listed(p) && OutlivingHeld(p)
    ensures OutlivingHeld(Step(p, e))
  {
    hide RemoveFirst, Sweep;
    match e
    case Admits(s, batchId) =>
    case Withdraws(hash) =>
    case Sweeps(now) => SweepHolds(p, now);
  }

  /** Both intents are pending, each in its own batch. */
  predicate BothPending(p: Pool, s: Signed, b: nat, t: Signed, c: nat)
  {
    && s.hash in p.byHash && p.byHash[s.hash] == Stored(b, s, Pending)
    && t.hash in p.byHash && p.byHash[t.hash] == Stored(c, t, Pending)
  }

  /** Two intents of one owner and nonce can be pending together, over some run, if and only if one of them is signed to
      expire while its batch is still held. */
  lemma SharedNonceExactly(s: Signed, b: nat, t: Signed, c: nat)
    requires s.hash != t.hash && KeyOf(s) == KeyOf(t)
    ensures (exists events :: SweepsRise(events) && BothPending(Run(events), s, b, t, c)) <==>
      !Outlives(s, b) || !Outlives(t, c)
  {
    if Outlives(s, b) && Outlives(t, c) {
      forall events | SweepsRise(events) ensures !BothPending(Run(events), s, b, t, c) {
        RunHolds(events);
        hide Run;
      }
    } else if !Outlives(s, b) {
      ReusedAfterExpiry(s, b, t, c);
      assert SweepsRise(Reuse(s, b, t, c)) && BothPending(Run(Reuse(s, b, t, c)), s, b, t, c);
    } else {
      ReusedAfterExpiry(t, c, s, b);
      assert SweepsRise(Reuse(t, c, s, b)) && BothPending(Run(Reuse(t, c, s, b)), s, b, t, c);
    }
  }

  /** The first is admitted, its validity passes, the nonce is released, and the second is admitted. */
  function Reuse(s: Signed, b: nat, t: Signed, c: nat): seq<Event>
  {
    [Admits(s, b), Sweeps(s.validUntil + 1), Admits(t, c)]
  }

  lemma ReusedAfterExpiry(s: Signed, b: nat, t: Signed, c: nat)
    requires s.hash != t.hash && KeyOf(s) == KeyOf(t) && !Outlives(s, b)
    ensures SweepsRise(Reuse(s, b, t, c)) && BothPending(Run(Reuse(s, b, t, c)), s, b, t, c)
  {
    var x, y, z := Admits(s, b), Sweeps(s.validUntil + 1), Admits(t, c);
    assert [x, y, z][..2] == [x, y] && [x, y][..1] == [x] && [x][..0] == [];
    assert SweepsRise([x, y, z]) by {
      assert SweepsRise([x]) && LastSwept([x]).None?;
      assert SweepsRise([x, y]);
    }
    hide Admit, Sweep, BothPending;
    NonceReleased(s, b);
    var p := Admit(EmptyPool(), s, b).pool;
    var q := Sweep(p, s.validUntil + 1);
    assert Run([x]) == p && Run([x, y]) == q && Run([x, y, z]) == Admit(q, t, c).pool;
    AdmittedBeside(q, s, b, t, c);
  }

  /** Swept after its validity, with its batch still held, an intent stays pending and its nonce is free. */
  lemma NonceReleased(s: Signed, b: nat)
    requires !Outlives(s, b)
    ensures var q := Sweep(Admit(EmptyPool(), s, b).pool, s.validUntil + 1);
      q.byHash == map[s.hash := Stored(b, s, Pending)] && KeyOf(s) !in q.byOwnerNonce
  {
    var p := Admit(EmptyPool(), s, b).pool;
    assert p.byHash == map[s.hash := Stored(b, s, Pending)]
      && p.byOwnerNonce == map[KeyOf(s) := Held(s.hash, s.validUntil)];
    assert ListOf(EmptyPool().byBatch, b) + [s] == [s];
    assert !InOverBatch(p.byBatch, s.hash, s.validUntil + 1);
  }

  lemma AdmittedBeside(q: Pool, s: Signed, b: nat, t: Signed, c: nat)
    requires s.hash != t.hash && KeyOf(t) !in q.byOwnerNonce
    requires q.byHash == map[s.hash := Stored(b, s, Pending)]
    ensures BothPending(Admit(q, t, c).pool, s, b, t, c)
  {
  }

  /** Such intents are taken in: the first, in batch 100 and valid until 200, outlives the solving window as the intake
      asks, and at 201 its nonce is free for a second one in batch 250. */
  lemma ReleasedNonceIsReused() returns (events: seq<Event>, s: Signed, t: Signed)
    ensures 100 + SOLUTION_WINDOW < s.validUntil < 250 < 250 + SOLUTION_WINDOW < t.validUntil
    ensures s != t && KeyOf(s) == KeyOf(t)
    ensures SweepsRise(events) && BothPending(Run(events), s, 100, t, 250)
  {
    s, t := Signed(1, 9, 7, 3, 10, 200), Signed(2, 9, 7, 3, 10, 700);
    events := Reuse(s, 100, t, 250);
    ReusedAfterExpiry(s, 100, t, 250);
  }
}
