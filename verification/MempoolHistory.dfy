/** What the mempool holds after any run, told by the run alone (api/src/mempool.ts). */
module MempoolHistory {
  import opened Common
  import opened Mempool

  // ----- what has become of an intent by event n

  ghost predicate Admitted(events: seq<Event>, j: nat) { j < |events| && events[j].Admits? }

  /** A sweep since finds its batch over. */
  ghost predicate OverBy(events: seq<Event>, j: nat, n: nat)
    requires Admitted(events, j) && n <= |events|
  {
    exists k :: j < k < n && events[k].Sweeps? && BatchOver(events[j].batchId, events[k].now)
  }

  /** A sweep since finds its status past retention. */
  ghost predicate ForgottenBy(events: seq<Event>, j: nat, n: nat)
    requires Admitted(events, j) && n <= |events|
  {
    exists k :: j < k < n && events[k].Sweeps?
      && events[k].now > events[j].batchId + SOLUTION_WINDOW + FINALIZE_DEADLINE + STATUS_RETENTION
  }

  /** A sweep since finds it past its validity. */
  ghost predicate LapsedBy(events: seq<Event>, j: nat, n: nat)
    requires Admitted(events, j) && n <= |events|
  {
    exists k :: j < k < n && events[k].Sweeps? && events[k].now > events[j].signed.validUntil
  }

  /** It is withdrawn before a sweep finds its batch over. */
  ghost predicate PulledBy(events: seq<Event>, j: nat, n: nat)
    requires Admitted(events, j) && n <= |events|
  {
    exists k :: j < k < n && events[k] == Withdraws(events[j].signed.hash) && !OverBy(events, j, k)
  }

  ghost predicate ReleasedBy(events: seq<Event>, j: nat, n: nat)
    requires Admitted(events, j) && n <= |events|
  {
    LapsedBy(events, j, n) || PulledBy(events, j, n)
  }

  ghost function StatusBy(events: seq<Event>, j: nat, n: nat): Status
    requires Admitted(events, j) && n <= |events|
  {
    if PulledBy(events, j, n) then Rejected else if OverBy(events, j, n) then Expired else Pending
  }

  /** It is taken in: by then every one of its hash taken in before is forgotten, and every one of its owner and nonce
      has let go of them. */
  ghost predicate Taken(events: seq<Event>, i: nat)
    requires i <= |events|
    decreases i
  {
    && Admitted(events, i)
    && forall j :: 0 <= j < i && Taken(events, j) ==>
         && (events[j].signed.hash == events[i].signed.hash ==> ForgottenBy(events, j, i))
         && (KeyOf(events[j].signed) == KeyOf(events[i].signed) ==> ReleasedBy(events, j, i))
  }

  /** Taken in and not forgotten. */
  ghost predicate Known(events: seq<Event>, j: nat, n: nat): (r: bool)
    requires n <= |events|
    ensures r ==> j < n && Admitted(events, j)
  {
    j < n && Admitted(events, j) && Taken(events, j) && !ForgottenBy(events, j, n)
  }

  /** Taken in and still holding its owner and nonce. */
  ghost predicate Holds(events: seq<Event>, j: nat, n: nat): (r: bool)
    requires n <= |events|
    ensures r ==> j < n && Admitted(events, j)
  {
    j < n && Admitted(events, j) && Taken(events, j) && !ReleasedBy(events, j, n)
  }

  // ----- one event more

  lemma OneMore(events: seq<Event>, j: nat, n: nat)
    requires Admitted(events, j) && j < n < |events|
    ensures OverBy(events, j, n + 1) <==>
      || OverBy(events, j, n) || (events[n].Sweeps? && BatchOver(events[j].batchId, events[n].now))
    ensures ForgottenBy(events, j, n + 1) <==>
      || ForgottenBy(events, j, n)
      || (events[n].Sweeps?
          && events[n].now > events[j].batchId + SOLUTION_WINDOW + FINALIZE_DEADLINE + STATUS_RETENTION)
    ensures LapsedBy(events, j, n + 1) <==>
      || LapsedBy(events, j, n) || (events[n].Sweeps? && events[n].now > events[j].signed.validUntil)
    ensures PulledBy(events, j, n + 1) <==>
      || PulledBy(events, j, n) || (events[n] == Withdraws(events[j].signed.hash) && !OverBy(events, j, n))
  {
    hide OverBy;
    OverMore(events, j, n);
    if events[n].Sweeps? {
      if LapsedBy(events, j, n + 1) && !LapsedBy(events, j, n) {
        assert events[n].now > events[j].signed.validUntil;
      }
    }
  }

  lemma OverMore(events: seq<Event>, j: nat, n: nat)
    requires Admitted(events, j) && j < n < |events|
    ensures OverBy(events, j, n + 1) <==>
      || OverBy(events, j, n) || (events[n].Sweeps? && BatchOver(events[j].batchId, events[n].now))
  {
  }

  lemma JustTaken(events: seq<Event>, n: nat)
    requires Admitted(events, n)
    ensures !OverBy(events, n, n + 1) && !ForgottenBy(events, n, n + 1) && !ReleasedBy(events, n, n + 1)
  {
  }

  lemma ForgottenIsOver(events: seq<Event>, j: nat, n: nat)
    requires Admitted(events, j) && n <= |events| && ForgottenBy(events, j, n)
    ensures OverBy(events, j, n)
  {
    var k :| j < k < n && events[k].Sweeps?
      && events[k].now > events[j].batchId + SOLUTION_WINDOW + FINALIZE_DEADLINE + STATUS_RETENTION;
    assert BatchOver(events[j].batchId, events[k].now);
  }

  lemma StaysSo(events: seq<Event>, j: nat, m: nat, n: nat)
    requires Admitted(events, j) && m <= n <= |events|
    ensures ForgottenBy(events, j, m) ==> ForgottenBy(events, j, n)
    ensures ReleasedBy(events, j, m) ==> ReleasedBy(events, j, n)
  {
    hide OverBy;
  }

  /** Of one hash at most one is known, and of one owner and nonce at most one holds them. */
  lemma OnlyOne(events: seq<Event>, i: nat, j: nat, n: nat)
    requires n <= |events|
    ensures Known(events, i, n) && Known(events, j, n) && events[i].signed.hash == events[j].signed.hash ==> i == j
    ensures Holds(events, i, n) && Holds(events, j, n) && KeyOf(events[i].signed) == KeyOf(events[j].signed) ==> i == j
  {
    hide ForgottenBy, ReleasedBy;
    if i < n && j < n && Admitted(events, i) && Admitted(events, j) {
      StaysSo(events, i, j, n);
      StaysSo(events, j, i, n);
    }
  }

  // ----- the maps by the run

  ghost predicate KnowsThem(events: seq<Event>, n: nat, p: Pool)
    requires n <= |events|
  {
    && (forall j: nat :: Known(events, j, n) ==>
          && events[j].signed.hash in p.byHash
          && p.byHash[events[j].signed.hash] == Stored(events[j].batchId, events[j].signed, StatusBy(events, j, n)))
    && (forall h :: h in p.byHash ==> exists j: nat :: Known(events, j, n) && events[j].signed.hash == h)
  }

  ghost predicate HoldsThem(events: seq<Event>, n: nat, p: Pool)
    requires n <= |events|
  {
    && (forall j: nat :: Holds(events, j, n) ==>
          && KeyOf(events[j].signed) in p.byOwnerNonce
          && p.byOwnerNonce[KeyOf(events[j].signed)] == Held(events[j].signed.hash, events[j].signed.validUntil))
    && (forall key :: key in p.byOwnerNonce ==> exists j: nat :: Holds(events, j, n) && KeyOf(events[j].signed) == key)
  }

  ghost predicate Told(events: seq<Event>, n: nat, p: Pool)
    requires n <= |events|
  {
    KnowsThem(events, n, p) && HoldsThem(events, n, p) && Listed(p)
  }

  // ----- an admission

  /** The next intent is taken in exactly when neither its hash nor its owner and nonce are in the maps. */
  lemma TakenIs(events: seq<Event>, n: nat, p: Pool)
    requires n < |events| && events[n].Admits? && KnowsThem(events, n, p) && HoldsThem(events, n, p)
    ensures Taken(events, n) <==>
      events[n].signed.hash !in p.byHash && KeyOf(events[n].signed) !in p.byOwnerNonce
  {
    hide ForgottenBy, ReleasedBy, StatusBy, Taken;
    TakenMeans(events, n);
    if events[n].signed.hash in p.byHash {
      var j: nat :| Known(events, j, n) && events[j].signed.hash == events[n].signed.hash;
    }
    if KeyOf(events[n].signed) in p.byOwnerNonce {
      var j: nat :| Holds(events, j, n) && KeyOf(events[j].signed) == KeyOf(events[n].signed);
    }
  }

  /** Nobody known has its hash and nobody holds its owner and nonce. */
  lemma TakenMeans(events: seq<Event>, n: nat)
    requires Admitted(events, n)
    ensures Taken(events, n) <==> forall j: nat ::
      && (Known(events, j, n) ==> events[j].signed.hash != events[n].signed.hash)
      && (Holds(events, j, n) ==> KeyOf(events[j].signed) != KeyOf(events[n].signed))
  {
    hide ForgottenBy, ReleasedBy;
    if !Taken(events, n) {
      var j :| 0 <= j < n && Taken(events, j)
        && ((events[j].signed.hash == events[n].signed.hash && !ForgottenBy(events, j, n))
            || (KeyOf(events[j].signed) == KeyOf(events[n].signed) && !ReleasedBy(events, j, n)));
      assert Admitted(events, j);
      assert Known(events, j, n) || Holds(events, j, n);
    }
  }

  lemma AdmitTold(events: seq<Event>, n: nat, p: Pool)
    requires n < |events| && events[n].Admits? && Told(events, n, p)
    ensures Told(events, n + 1, Admit(p, events[n].signed, events[n].batchId).pool)
  {
    hide Listed, KnowsThem, HoldsThem;
    AdmitListed(p, events[n].signed, events[n].batchId);
    AdmitKnows(events, n, p);
    AdmitHolds(events, n, p);
  }

  /** An admission moves nobody before it, and is known and holds if it is taken in. */
  lemma AdmitMoves(events: seq<Event>, n: nat, j: nat)
    requires n < |events| && events[n].Admits? && j <= n && Admitted(events, j)
    ensures j < n ==> Known(events, j, n + 1) == Known(events, j, n) && Holds(events, j, n + 1) == Holds(events, j, n)
    ensures j < n ==> StatusBy(events, j, n + 1) == StatusBy(events, j, n)
    ensures Known(events, n, n + 1) == Holds(events, n, n + 1) == Taken(events, n)
    ensures StatusBy(events, n, n + 1) == Pending
  {
    hide OverBy, ForgottenBy, LapsedBy, PulledBy, Taken;
    JustTaken(events, n);
    if j < n { OneMore(events, j, n); }
  }

  lemma AdmitKnows(events: seq<Event>, n: nat, p: Pool)
    requires n < |events| && events[n].Admits? && KnowsThem(events, n, p) && HoldsThem(events, n, p)
    ensures KnowsThem(events, n + 1, Admit(p, events[n].signed, events[n].batchId).pool)
  {
    hide Known, StatusBy, Holds, Taken, HoldsThem;
    var q := Admit(p, events[n].signed, events[n].batchId).pool;
    TakenIs(events, n, p);
    AdmitMoves(events, n, n);
    forall j: nat | Known(events, j, n + 1)
      ensures events[j].signed.hash in q.byHash
      ensures q.byHash[events[j].signed.hash] ==
        Stored(events[j].batchId, events[j].signed, StatusBy(events, j, n + 1))
    {
      AdmitMoves(events, n, j);
    }
    forall h | h in q.byHash ensures exists j: nat :: Known(events, j, n + 1) && events[j].signed.hash == h {
      if h in p.byHash {
        var j: nat :| Known(events, j, n) && events[j].signed.hash == h;
        AdmitMoves(events, n, j);
      } else {
        assert Known(events, n, n + 1);
      }
    }
  }

  lemma AdmitHolds(events: seq<Event>, n: nat, p: Pool)
    requires n < |events| && events[n].Admits? && KnowsThem(events, n, p) && HoldsThem(events, n, p)
    ensures HoldsThem(events, n + 1, Admit(p, events[n].signed, events[n].batchId).pool)
  {
    hide Known, StatusBy, Holds, Taken, KnowsThem;
    var q := Admit(p, events[n].signed, events[n].batchId).pool;
    TakenIs(events, n, p);
    AdmitMoves(events, n, n);
    forall j: nat | Holds(events, j, n + 1)
      ensures KeyOf(events[j].signed) in q.byOwnerNonce
      ensures q.byOwnerNonce[KeyOf(events[j].signed)] == Held(events[j].signed.hash, events[j].signed.validUntil)
    {
      AdmitMoves(events, n, j);
    }
    forall key | key in q.byOwnerNonce
      ensures exists j: nat :: Holds(events, j, n + 1) && KeyOf(events[j].signed) == key
    {
      if key in p.byOwnerNonce {
        var j: nat :| Holds(events, j, n) && KeyOf(events[j].signed) == key;
        AdmitMoves(events, n, j);
      } else {
        assert Holds(events, n, n + 1);
      }
    }
  }

  // ----- a withdrawal

  lemma WithdrawTold(events: seq<Event>, n: nat, p: Pool)
    requires n < |events| && events[n].Withdraws? && Told(events, n, p)
    ensures Told(events, n + 1, Withdraw(p, events[n].hash))
  {
    hide Listed, KnowsThem, HoldsThem;
    WithdrawListed(p, events[n].hash);
    WithdrawKnows(events, n, p);
    WithdrawHolds(events, n, p);
  }

  /** A withdrawal forgets nobody, and pulls the one pending intent of its hash. */
  lemma WithdrawMoves(events: seq<Event>, n: nat, j: nat)
    requires n < |events| && events[n].Withdraws? && j < n && Admitted(events, j)
    ensures Known(events, j, n + 1) == Known(events, j, n)
    ensures Holds(events, j, n + 1) <==>
      Holds(events, j, n) && !(events[j].signed.hash == events[n].hash && StatusBy(events, j, n) == Pending)
    ensures StatusBy(events, j, n + 1) ==
      if events[j].signed.hash == events[n].hash && StatusBy(events, j, n) == Pending then Rejected
      else StatusBy(events, j, n)
  {
    hide OverBy, ForgottenBy, LapsedBy, PulledBy, Taken;
    OneMore(events, j, n);
  }

  lemma WithdrawKnows(events: seq<Event>, n: nat, p: Pool)
    requires n < |events| && events[n].Withdraws? && KnowsThem(events, n, p)
    ensures KnowsThem(events, n + 1, Withdraw(p, events[n].hash))
  {
    hide Known, StatusBy, Holds;
    var q := Withdraw(p, events[n].hash);
    forall j: nat | Known(events, j, n + 1)
      ensures events[j].signed.hash in q.byHash
      ensures q.byHash[events[j].signed.hash] ==
        Stored(events[j].batchId, events[j].signed, StatusBy(events, j, n + 1))
    {
      KnownIs(events, j, n + 1);
      WithdrawMoves(events, n, j);
    }
    forall h | h in q.byHash ensures exists j: nat :: Known(events, j, n + 1) && events[j].signed.hash == h {
      var j: nat :| Known(events, j, n) && events[j].signed.hash == h;
      KnownIs(events, j, n);
      WithdrawMoves(events, n, j);
    }
  }

  /** Where the next event admits nobody, the known and the holders are among those before it. */
  lemma KnownIs(events: seq<Event>, j: nat, n: nat)
    requires n <= |events|
    ensures Known(events, j, n) || Holds(events, j, n) ==>
      Admitted(events, j) && j < n && (j == n - 1 ==> events[n - 1].Admits?)
  {
    hide Taken, ForgottenBy, ReleasedBy;
  }

  /** The known intent of a hash and the holder of its owner and nonce, if of that hash, are one. */
  lemma SameAsPending(events: seq<Event>, n: nat, i: nat, j: nat)
    requires n <= |events| && Known(events, i, n) && Holds(events, j, n)
    requires events[j].signed.hash == events[i].signed.hash && KeyOf(events[j].signed) == KeyOf(events[i].signed)
    ensures i == j
  {
    hide ForgottenBy, ReleasedBy;
    StaysSo(events, i, j, n);
    StaysSo(events, j, i, n);
  }

  lemma WithdrawHolds(events: seq<Event>, n: nat, p: Pool)
    requires n < |events| && events[n].Withdraws? && Told(events, n, p)
    ensures HoldsThem(events, n + 1, Withdraw(p, events[n].hash))
  {
    hide Known, StatusBy, Holds, Listed;
    var h, q := events[n].hash, Withdraw(p, events[n].hash);
    forall j: nat | Holds(events, j, n + 1)
      ensures KeyOf(events[j].signed) in q.byOwnerNonce
      ensures q.byOwnerNonce[KeyOf(events[j].signed)] == Held(events[j].signed.hash, events[j].signed.validUntil)
    {
      KnownIs(events, j, n + 1);
      WithdrawMoves(events, n, j);
      HolderStays(events, n, p, j);
    }
    forall key | key in q.byOwnerNonce
      ensures exists j: nat :: Holds(events, j, n + 1) && KeyOf(events[j].signed) == key
    {
      assert key in p.byOwnerNonce;
      var j: nat :| Holds(events, j, n) && KeyOf(events[j].signed) == key;
      KnownIs(events, j, n);
      WithdrawMoves(events, n, j);
      if events[j].signed.hash == h && StatusBy(events, j, n) == Pending {
        PendingKnown(events, j, n);
      }
    }
  }

  /** A holder still pending is known. */
  lemma PendingKnown(events: seq<Event>, j: nat, n: nat)
    requires n <= |events| && Holds(events, j, n) && StatusBy(events, j, n) == Pending
    ensures Known(events, j, n)
  {
    hide Taken, OverBy, LapsedBy, PulledBy;
    if ForgottenBy(events, j, n) { ForgottenIsOver(events, j, n); }
  }

  lemma HolderStays(events: seq<Event>, n: nat, p: Pool, j: nat)
    requires n < |events| && events[n].Withdraws? && KnowsThem(events, n, p) && HoldsThem(events, n, p)
    requires Holds(events, j, n)
    requires !(events[j].signed.hash == events[n].hash && StatusBy(events, j, n) == Pending)
    ensures var q := Withdraw(p, events[n].hash);
      KeyOf(events[j].signed) in q.byOwnerNonce
        && q.byOwnerNonce[KeyOf(events[j].signed)] == Held(events[j].signed.hash, events[j].signed.validUntil)
  {
    hide Known, StatusBy, Holds;
    var h := events[n].hash;
    if events[j].signed.hash == h && h in p.byHash && p.byHash[h].status == Pending {
      var i: nat :| Known(events, i, n) && events[i].signed.hash == h;
      if KeyOf(events[i].signed) == KeyOf(events[j].signed) {
        KnownIs(events, i, n);
        KnownIs(events, j, n);
        SameAsPending(events, n, i, j);
      }
    }
  }

  // ----- a sweep

  lemma SweepMoves(events: seq<Event>, n: nat, j: nat)
    requires n < |events| && events[n].Sweeps? && j < n && Admitted(events, j)
    ensures var now, i := events[n].now, events[j];
      && (Known(events, j, n + 1) <==>
            Known(events, j, n) && now <= i.batchId + SOLUTION_WINDOW + FINALIZE_DEADLINE + STATUS_RETENTION)
      && (Holds(events, j, n + 1) <==> Holds(events, j, n) && now <= i.signed.validUntil)
      && StatusBy(events, j, n + 1) ==
         (if BatchOver(i.batchId, now) && StatusBy(events, j, n) == Pending then Expired else StatusBy(events, j, n))
  {
    hide OverBy, ForgottenBy, LapsedBy, PulledBy, Taken;
    OneMore(events, j, n);
  }

  lemma SweepTold(events: seq<Event>, n: nat, p: Pool)
    requires n < |events| && events[n].Sweeps? && Told(events, n, p)
    ensures Told(events, n + 1, Sweep(p, events[n].now))
  {
    hide Listed, KnowsThem, HoldsThem, Sweep, InOverBatch;
    SweepListed(p, events[n].now);
    SweepKnows(events, n, p);
    SweepHoldsThem(events, n, p);
  }

  lemma SweepKnows(events: seq<Event>, n: nat, p: Pool)
    requires n < |events| && events[n].Sweeps? && KnowsThem(events, n, p)
    requires forall h :: h in p.byHash && p.byHash[h].status == Pending ==>
      (InOverBatch(p.byBatch, h, events[n].now) <==> BatchOver(p.byHash[h].batchId, events[n].now))
    ensures KnowsThem(events, n + 1, Sweep(p, events[n].now))
  {
    hide Known, StatusBy, Holds, InOverBatch;
    var q := Sweep(p, events[n].now);
    forall j: nat | Known(events, j, n + 1)
      ensures events[j].signed.hash in q.byHash
      ensures q.byHash[events[j].signed.hash] ==
        Stored(events[j].batchId, events[j].signed, StatusBy(events, j, n + 1))
    {
      KnownIs(events, j, n + 1);
      SweepMoves(events, n, j);
    }
    forall h | h in q.byHash ensures exists j: nat :: Known(events, j, n + 1) && events[j].signed.hash == h {
      var j: nat :| Known(events, j, n) && events[j].signed.hash == h;
      KnownIs(events, j, n);
      SweepMoves(events, n, j);
    }
  }

  lemma SweepHoldsThem(events: seq<Event>, n: nat, p: Pool)
    requires n < |events| && events[n].Sweeps? && HoldsThem(events, n, p)
    ensures HoldsThem(events, n + 1, Sweep(p, events[n].now))
  {
    hide Known, StatusBy, Holds, InOverBatch;
    var q := Sweep(p, events[n].now);
    forall j: nat | Holds(events, j, n + 1)
      ensures KeyOf(events[j].signed) in q.byOwnerNonce
      ensures q.byOwnerNonce[KeyOf(events[j].signed)] == Held(events[j].signed.hash, events[j].signed.validUntil)
    {
      KnownIs(events, j, n + 1);
      SweepMoves(events, n, j);
    }
    forall key | key in q.byOwnerNonce
      ensures exists j: nat :: Holds(events, j, n + 1) && KeyOf(events[j].signed) == key
    {
      var j: nat :| Holds(events, j, n) && KeyOf(events[j].signed) == key;
      KnownIs(events, j, n);
      SweepMoves(events, n, j);
    }
  }

  // ----- every run

  lemma {:induction false} RunToldBy(events: seq<Event>, n: nat)
    requires n <= |events|
    ensures Told(events, n, Run(events[..n]))
  {
    hide Told, Step;
    if n == 0 {
      NothingTold(events);
    } else {
      RunToldBy(events, n - 1);
      assert events[..n][..n - 1] == events[..n - 1];
      StepTold(events, n - 1, Run(events[..n - 1]));
    }
  }

  lemma NothingTold(events: seq<Event>)
    ensures Told(events, 0, EmptyPool()) && ListsThem(events, 0, EmptyPool())
  {
  }

  lemma StepTold(events: seq<Event>, n: nat, p: Pool)
    requires n < |events| && Told(events, n, p)
    ensures Told(events, n + 1, Step(p, events[n]))
  {
    hide Told, Admit, Withdraw, Sweep;
    match events[n]
    case Admits(s, batchId) => AdmitTold(events, n, p);
    case Withdraws(hash) => WithdrawTold(events, n, p);
    case Sweeps(now) => SweepTold(events, n, p);
  }

  /** After any run whatever, in any order of times: a status is kept for exactly the intents taken in and not
      forgotten, pending, withdrawn or expired by what came first, and an owner and nonce are held for exactly those
      that have not let go of them. */
  lemma RunTold(events: seq<Event>)
    ensures KnowsThem(events, |events|, Run(events)) && HoldsThem(events, |events|, Run(events))
  {
    hide Run;
    RunToldBy(events, |events|);
    assert events[..|events|] == events;
  }

  /** An intent is taken in or refused for what is known and held, and a refusal names the holder. */
  lemma AdmissionExactly(events: seq<Event>, s: Signed, batchId: nat)
    ensures var run, n, r := events + [Admits(s, batchId)], |events|, Admit(Run(events), s, batchId).result;
      && (r.Ok? <==> Taken(run, n))
      && (r == Err(DuplicateHash) <==> exists j: nat :: Known(run, j, n) && run[j].signed.hash == s.hash)
      && (r.Err? && r != Err(DuplicateHash) ==>
            exists j: nat :: Holds(run, j, n) && KeyOf(run[j].signed) == KeyOf(s)
              && r == Err(DuplicateNonce(run[j].signed.hash)))
  {
    hide Run, Taken, Known, Holds, StatusBy, Listed;
    var run, n := events + [Admits(s, batchId)], |events|;
    assert run[..n] == events;
    RunToldBy(run, n);
    TakenIs(run, n, Run(events));
    var p := Run(events);
    if s.hash !in p.byHash && KeyOf(s) in p.byOwnerNonce {
      var j: nat :| Holds(run, j, n) && KeyOf(run[j].signed) == KeyOf(s);
    }
  }

  // ----- the lists, in order of admission

  /** Of the first m events, the intents of batch b taken in and still pending by event n. */
  ghost function Waiting(events: seq<Event>, b: nat, n: nat, m: nat): seq<Signed>
    requires m <= n <= |events|
  {
    if m == 0 then []
    else if WaitsIn(events, b, n, m - 1) then Waiting(events, b, n, m - 1) + [events[m - 1].signed]
    else Waiting(events, b, n, m - 1)
  }

  ghost predicate WaitsIn(events: seq<Event>, b: nat, n: nat, j: nat): (r: bool)
    requires j < n <= |events|
    ensures r ==> Admitted(events, j)
  {
    Taken(events, j) && events[j].batchId == b && StatusBy(events, j, n) == Pending
  }

  function OtherHash(hash: nat): Signed -> bool { (s: Signed) => s.hash != hash }

  lemma {:induction false} RemoveIsFilter(list: seq<Signed>, hash: nat)
    requires DistinctHashes(list)
    ensures RemoveFirst(list, hash) == Filter(list, OtherHash(hash))
  {
    hide Filter;
    if list == [] {
      FilterAll(list, OtherHash(hash));
    } else {
      var first, rest, other := list[0], list[1..], OtherHash(hash);
      assert list == [first] + rest;
      FilterAppend([first], rest, other);
      if first.hash == hash {
        forall s | s in rest ensures other(s) {
          var k :| 0 <= k < |rest| && rest[k] == s;
          assert list[k + 1] == s;
        }
        FilterNone([first], other);
        FilterAll(rest, other);
      } else {
        FilterAll([first], other);
        RemoveIsFilter(rest, hash);
      }
    }
  }

  lemma {:induction false} WaitingAfterAdmit(events: seq<Event>, b: nat, n: nat, m: nat)
    requires m <= n < |events| && events[n].Admits?
    ensures Waiting(events, b, n + 1, m) == Waiting(events, b, n, m)
  {
    hide Taken, PulledBy, OverBy, ForgottenBy, LapsedBy;
    if m > 0 {
      WaitingAfterAdmit(events, b, n, m - 1);
      if Admitted(events, m - 1) { OneMore(events, m - 1, n); }
    }
  }

  lemma {:induction false} WaitingAfterWithdraw(events: seq<Event>, b: nat, n: nat, m: nat)
    requires m <= n < |events| && events[n].Withdraws?
    ensures Waiting(events, b, n + 1, m) == Filter(Waiting(events, b, n, m), OtherHash(events[n].hash))
  {
    hide Taken, StatusBy;
    if m > 0 {
      WaitingAfterWithdraw(events, b, n, m - 1);
      if Admitted(events, m - 1) { WithdrawMoves(events, n, m - 1); }
    }
  }

  lemma {:induction false} WaitingAfterSweep(events: seq<Event>, b: nat, n: nat, m: nat)
    requires m <= n < |events| && events[n].Sweeps?
    ensures Waiting(events, b, n + 1, m) == if BatchOver(b, events[n].now) then [] else Waiting(events, b, n, m)
  {
    hide Taken, StatusBy;
    if m > 0 {
      WaitingAfterSweep(events, b, n, m - 1);
      if Admitted(events, m - 1) { SweepMoves(events, n, m - 1); }
    }
  }

  /** Every batch's list, by the run. */
  ghost predicate ListsThem(events: seq<Event>, n: nat, p: Pool)
    requires n <= |events|
  {
    forall b: nat :: ListOf(p.byBatch, b) == Waiting(events, b, n, n)
  }

  lemma AdmitLists(events: seq<Event>, n: nat, p: Pool)
    requires n < |events| && events[n].Admits? && Told(events, n, p) && ListsThem(events, n, p)
    ensures ListsThem(events, n + 1, Admit(p, events[n].signed, events[n].batchId).pool)
  {
    hide Taken, Listed, KnowsThem, HoldsThem, PulledBy, OverBy;
    TakenIs(events, n, p);
    JustTaken(events, n);
    var q := Admit(p, events[n].signed, events[n].batchId).pool;
    forall b: nat ensures ListOf(q.byBatch, b) == Waiting(events, b, n + 1, n + 1) {
      WaitingAfterAdmit(events, b, n, n);
    }
  }

  lemma WithdrawLists(events: seq<Event>, n: nat, p: Pool)
    requires n < |events| && events[n].Withdraws? && Listed(p) && ListsThem(events, n, p)
    ensures ListsThem(events, n + 1, Withdraw(p, events[n].hash))
  {
    hide WaitsIn, RemoveFirst;
    var h, q := events[n].hash, Withdraw(p, events[n].hash);
    forall b: nat ensures ListOf(q.byBatch, b) == Waiting(events, b, n + 1, n + 1) {
      WaitingAfterWithdraw(events, b, n, n);
      RemovedFrom(p, h, b);
    }
  }

  /** A withdrawal takes the hash out of every list, since only its own batch has it, once, and only while pending. */
  lemma RemovedFrom(p: Pool, h: nat, b: nat)
    requires Listed(p)
    ensures ListOf(Withdraw(p, h).byBatch, b) == Filter(ListOf(p.byBatch, b), OtherHash(h))
  {
    hide RemoveFirst;
    var list := ListOf(p.byBatch, b);
    if h in p.byHash && p.byHash[h].status == Pending && p.byHash[h].batchId == b {
      RemoveIsFilter(list, h);
    } else {
      forall s | s in list ensures s.hash != h {
        assert p.byHash[s.hash] == Stored(b, s, Pending);
      }
      FilterAll(list, OtherHash(h));
    }
  }

  lemma SweepLists(events: seq<Event>, n: nat, p: Pool)
    requires n < |events| && events[n].Sweeps? && ListsThem(events, n, p)
    ensures ListsThem(events, n + 1, Sweep(p, events[n].now))
  {
    hide WaitsIn;
    var q := Sweep(p, events[n].now);
    forall b: nat ensures ListOf(q.byBatch, b) == Waiting(events, b, n + 1, n + 1) {
      WaitingAfterSweep(events, b, n, n);
    }
  }

  lemma {:induction false} RunListsBy(events: seq<Event>, n: nat)
    requires n <= |events|
    ensures ListsThem(events, n, Run(events[..n]))
  {
    hide Told, ListsThem, Step;
    if n == 0 {
      NothingTold(events);
    } else {
      RunListsBy(events, n - 1);
      RunToldBy(events, n - 1);
      assert events[..n][..n - 1] == events[..n - 1];
      StepLists(events, n - 1, Run(events[..n - 1]));
    }
  }

  lemma StepLists(events: seq<Event>, n: nat, p: Pool)
    requires n < |events| && Told(events, n, p) && ListsThem(events, n, p)
    ensures ListsThem(events, n + 1, Step(p, events[n]))
  {
    hide KnowsThem, HoldsThem, ListsThem, Listed, Admit, Withdraw, Sweep;
    match events[n]
    case Admits(s, batchId) => AdmitLists(events, n, p);
    case Withdraws(hash) => WithdrawLists(events, n, p);
    case Sweeps(now) => SweepLists(events, n, p);
  }

  /** After any run whatever, each batch lists exactly its intents taken in and still pending, in order of admission. */
  lemma RunLists(events: seq<Event>)
    ensures forall b: nat :: ListOf(Run(events).byBatch, b) == Waiting(events, b, |events|, |events|)
  {
    hide Run;
    RunListsBy(events, |events|);
    assert events[..|events|] == events;
  }

  // ----- the withdrawals, in order

  /** Event k withdraws an intent of batch b that is pending then. */
  ghost predicate Pulls(events: seq<Event>, b: nat, k: nat)
    requires k < |events|
  {
    && events[k].Withdraws?
    && exists j: nat :: Known(events, j, k) && events[j].batchId == b && events[j].signed.hash == events[k].hash
         && StatusBy(events, j, k) == Pending
  }

  /** A sweep between the events finds the batch over. */
  ghost predicate BatchGone(events: seq<Event>, b: nat, k: nat, n: nat)
    requires n <= |events|
  {
    exists i :: k < i < n && events[i].Sweeps? && BatchOver(b, events[i].now)
  }

  /** Of the first m events, the hashes withdrawn from batch b and not swept away with it by event n. */
  ghost function Withdrawn(events: seq<Event>, b: nat, n: nat, m: nat): seq<nat>
    requires m <= n <= |events|
  {
    if m == 0 then []
    else if Pulls(events, b, m - 1) && !BatchGone(events, b, m - 1, n)
      then Withdrawn(events, b, n, m - 1) + [events[m - 1].hash]
    else Withdrawn(events, b, n, m - 1)
  }

  function HashesOf(m: map<nat, seq<nat>>, b: nat): seq<nat> { if b in m then m[b] else [] }

  /** The withdrawals of every batch, by the run; none without a list beside them. */
  ghost predicate PullsThem(events: seq<Event>, n: nat, p: Pool)
    requires n <= |events|
  {
    && (forall b: nat :: HashesOf(p.withdrawn, b) == Withdrawn(events, b, n, n))
    && forall b :: b in p.withdrawn ==> b in p.byBatch
  }

  lemma {:induction false} WithdrawnLater(events: seq<Event>, b: nat, n: nat, m: nat)
    requires m <= n < |events|
    ensures Withdrawn(events, b, n + 1, m) ==
      if events[n].Sweeps? && BatchOver(b, events[n].now) then [] else Withdrawn(events, b, n, m)
  {
    hide Pulls;
    if m > 0 {
      WithdrawnLater(events, b, n, m - 1);
      assert BatchGone(events, b, m - 1, n + 1) <==>
        BatchGone(events, b, m - 1, n) || (events[n].Sweeps? && BatchOver(b, events[n].now));
    }
  }

  lemma PullsIs(events: seq<Event>, b: nat, n: nat, p: Pool)
    requires n < |events| && KnowsThem(events, n, p) && events[n].Withdraws?
    ensures var h := events[n].hash;
      Pulls(events, b, n) <==> h in p.byHash && p.byHash[h].status == Pending && p.byHash[h].batchId == b
    ensures !BatchGone(events, b, n, n + 1)
  {
    hide Known, StatusBy;
    var h := events[n].hash;
    if h in p.byHash {
      var j: nat :| Known(events, j, n) && events[j].signed.hash == h;
      assert p.byHash[h] == Stored(events[j].batchId, events[j].signed, StatusBy(events, j, n));
    }
  }

  lemma PullsNext(events: seq<Event>, n: nat, p: Pool)
    requires n < |events| && Told(events, n, p) && PullsThem(events, n, p)
    ensures PullsThem(events, n + 1, Step(p, events[n]))
  {
    hide Pulls, BatchGone, KnowsThem, HoldsThem, RemoveFirst;
    var q := Step(p, events[n]);
    forall b: nat ensures HashesOf(q.withdrawn, b) == Withdrawn(events, b, n + 1, n + 1) {
      WithdrawnLater(events, b, n, n);
      if events[n].Withdraws? {
        PullsIs(events, b, n, p);
      } else {
        OnlyWithdrawals(events, b, n);
      }
    }
    if events[n].Withdraws? && events[n].hash in p.byHash && p.byHash[events[n].hash].status == Pending {
      assert p.byHash[events[n].hash].batchId in p.byBatch;
    }
  }

  lemma OnlyWithdrawals(events: seq<Event>, b: nat, n: nat)
    requires n < |events| && !events[n].Withdraws?
    ensures !Pulls(events, b, n)
  {
  }

  lemma NothingPulled(events: seq<Event>)
    ensures PullsThem(events, 0, EmptyPool())
  {
  }

  lemma {:induction false} RunPullsBy(events: seq<Event>, n: nat)
    requires n <= |events|
    ensures PullsThem(events, n, Run(events[..n]))
  {
    hide Told, PullsThem, Step;
    if n == 0 {
      NothingPulled(events);
    } else {
      RunPullsBy(events, n - 1);
      RunToldBy(events, n - 1);
      assert events[..n][..n - 1] == events[..n - 1];
      PullsNext(events, n - 1, Run(events[..n - 1]));
    }
  }

  /** After any run whatever, each batch's withdrawals are the hashes withdrawn while pending since a sweep last found
      it over, in order. */
  lemma RunPulls(events: seq<Event>)
    ensures forall b: nat :: HashesOf(Run(events).withdrawn, b) == Withdrawn(events, b, |events|, |events|)
  {
    hide Run;
    RunPullsBy(events, |events|);
    assert events[..|events|] == events;
  }
}
