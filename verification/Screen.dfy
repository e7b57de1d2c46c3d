/** Which accepted intents can still be collected (api/src/revalidate.ts). */
module Screen {
  import opened Common
  import opened Mempool

  /** What the chain says of each owner at one block. */
  datatype OwnerFacts = OwnerFacts(balance: (nat, nat) -> nat, allowance: (nat, nat) -> nat,
    nonceUsed: (nat, nat) -> bool)

  datatype Rejection =
    | NonceAlreadyUsed(nonce: nat)
    | InsufficientBalance(balance: nat, committed: nat, sellAmount: nat)
    | Permit2NotApproved(allowance: nat, committed: nat, sellAmount: nat)

  datatype Withdrawal = Withdrawal(hash: nat, owner: nat, rejection: Rejection)

  datatype Screening = Screening(keep: seq<Signed>, withdrawn: seq<Withdrawal>, drawn: map<(nat, nat), nat>)

  function Drawn(m: map<(nat, nat), nat>, key: (nat, nat)): nat { if key in m then m[key] else 0 }

  /** Why the next intent cannot draw on what its owner has left, or None. */
  function RejectionOf(facts: OwnerFacts, s: Signed, already: nat): Option<Rejection>
  {
    var balance, allowance := facts.balance(s.owner, s.sellToken), facts.allowance(s.owner, s.sellToken);
    if facts.nonceUsed(s.owner, s.nonce) then Some(NonceAlreadyUsed(s.nonce))
    else if balance < already + s.sellAmount then Some(InsufficientBalance(balance, already, s.sellAmount))
    else if allowance < already + s.sellAmount then Some(Permit2NotApproved(allowance, already, s.sellAmount))
    else None
  }

  function ScreenOne(facts: OwnerFacts, r: Screening, s: Signed): Screening
  {
    var key := (s.owner, s.sellToken);
    match RejectionOf(facts, s, Drawn(r.drawn, key))
    case Some(rejection) => r.(withdrawn := r.withdrawn + [Withdrawal(s.hash, s.owner, rejection)])
    case None => r.(drawn := r.drawn[key := Drawn(r.drawn, key) + s.sellAmount], keep := r.keep + [s])
  }

  function ScreenAll(list: seq<Signed>, facts: OwnerFacts): Screening
  {
    if list == []
      then Screening([], [], map[]) else ScreenOne(facts, ScreenAll(list[..|list| - 1], facts), list[|list| - 1])
  }

  /** screen's loop over the list. */
  method ScreenLoop(list: seq<Signed>, facts: OwnerFacts) returns (keep: seq<Signed>, withdrawn: seq<Withdrawal>)
    ensures keep == ScreenAll(list, facts).keep && withdrawn == ScreenAll(list, facts).withdrawn
  {
    var drawn: map<(nat, nat), nat> := map[];
    keep, withdrawn := [], [];
    for k := 0 to |list|
      invariant Screening(keep, withdrawn, drawn) == ScreenAll(list[..k], facts)
    {
      assert list[..k + 1][..k] == list[..k];
      var s := list[k];
      var key := (s.owner, s.sellToken);
      var already := if key in drawn then drawn[key] else 0;
      var rejection := RejectionOf(facts, s, already);
      if rejection.Some? {
        withdrawn := withdrawn + [Withdrawal(s.hash, s.owner, rejection.value)];
      } else {
        drawn := drawn[key := already + s.sellAmount];
        keep := keep + [s];
      }
    }
    assert list[..|list|] == list;
  }

  /** What kept intents of one owner draw of one token. */
  function DrawOf(owner: nat, token: nat): Signed -> int
  {
    (s: Signed) => if s.owner == owner && s.sellToken == token then s.sellAmount else 0
  }

  lemma {:induction false} DrawnIsSum(list: seq<Signed>, facts: OwnerFacts, owner: nat, token: nat)
    ensures Drawn(ScreenAll(list, facts).drawn, (owner, token)) ==
      SumBy(ScreenAll(list, facts).keep, DrawOf(owner, token))
  {
    hide ScreenOne, SumBy;
    if list == [] {
      NothingDrawn(owner, token);
    } else {
      DrawnIsSum(list[..|list| - 1], facts, owner, token);
      DrawnStep(facts, ScreenAll(list[..|list| - 1], facts), list[|list| - 1], owner, token);
    }
  }

  lemma NothingDrawn(owner: nat, token: nat)
    ensures SumBy([], DrawOf(owner, token)) == 0
  {
  }

  /** One more intent adds to its owner's and token's draw what it adds to the kept sum. */
  lemma DrawnStep(facts: OwnerFacts, r: Screening, s: Signed, owner: nat, token: nat)
    requires Drawn(r.drawn, (owner, token)) == SumBy(r.keep, DrawOf(owner, token))
    ensures Drawn(ScreenOne(facts, r, s).drawn, (owner, token)) ==
      SumBy(ScreenOne(facts, r, s).keep, DrawOf(owner, token))
  {
    hide RejectionOf;
    KeptStep(r.keep, s, owner, token);
    hide SumBy;
  }

  lemma KeptStep(keep: seq<Signed>, s: Signed, owner: nat, token: nat)
    ensures SumBy(keep + [s], DrawOf(owner, token)) == SumBy(keep, DrawOf(owner, token)) + DrawOf(owner, token)(s)
  {
    assert (keep + [s])[..|keep|] == keep;
  }

  /** Whatever is kept can be collected together: per owner and token the kept amounts fit both the balance and the
      allowance, and no kept nonce is spent. */
  lemma {:induction false} KeptFits(list: seq<Signed>, facts: OwnerFacts, owner: nat, token: nat)
    ensures SumBy(ScreenAll(list, facts).keep, DrawOf(owner, token)) <=
      Min(facts.balance(owner, token), facts.allowance(owner, token))
    ensures forall s :: s in ScreenAll(list, facts).keep ==> s in list && !facts.nonceUsed(s.owner, s.nonce)
  {
    if list != [] {
      var init, s := list[..|list| - 1], list[|list| - 1];
      KeptFits(init, facts, owner, token);
      DrawnIsSum(init, facts, owner, token);
      var before := ScreenAll(init, facts);
      assert (before.keep + [s])[..|before.keep|] == before.keep;
      SumByNonNegative(before.keep, DrawOf(owner, token));
    }
  }

  /** The next intent is kept exactly when its nonce is unspent and it fits beside what was kept before it. */
  lemma KeptExactly(list: seq<Signed>, s: Signed, facts: OwnerFacts)
    ensures var before, after := ScreenAll(list, facts), ScreenAll(list + [s], facts);
      var room := Min(facts.balance(s.owner, s.sellToken), facts.allowance(s.owner, s.sellToken))
        - SumBy(before.keep, DrawOf(s.owner, s.sellToken));
      if !facts.nonceUsed(s.owner, s.nonce) && s.sellAmount <= room
      then after.keep == before.keep + [s] && after.withdrawn == before.withdrawn
      else
        && after.keep == before.keep
        && |after.withdrawn| == |before.withdrawn| + 1 && after.withdrawn[|before.withdrawn|].hash == s.hash
  {
    assert (list + [s])[..|list|] == list;
    DrawnIsSum(list, facts, s.owner, s.sellToken);
  }

  /** Later intents change nothing about earlier ones. */
  lemma {:induction false} PrefixStable(list: seq<Signed>, more: seq<Signed>, facts: OwnerFacts)
    ensures ScreenAll(list, facts).keep <= ScreenAll(list + more, facts).keep
    ensures ScreenAll(list, facts).withdrawn <= ScreenAll(list + more, facts).withdrawn
  {
    if more == [] {
      assert list + more == list;
    } else {
      assert (list + more)[..|list + more| - 1] == list + more[..|more| - 1];
      PrefixStable(list, more[..|more| - 1], facts);
    }
  }

  /** Screening what was kept keeps all of it, with the same draws. */
  lemma {:induction false} Idempotent(list: seq<Signed>, facts: OwnerFacts)
    ensures var r := ScreenAll(list, facts); ScreenAll(r.keep, facts) == r.(withdrawn := [])
  {
    hide ScreenOne;
    if list != [] {
      Idempotent(list[..|list| - 1], facts);
      KeptAgain(facts, ScreenAll(list[..|list| - 1], facts), list[|list| - 1]);
    }
  }

  lemma KeptAgain(facts: OwnerFacts, before: Screening, s: Signed)
    requires ScreenAll(before.keep, facts) == before.(withdrawn := [])
    ensures var r := ScreenOne(facts, before, s); ScreenAll(r.keep, facts) == r.(withdrawn := [])
  {
    hide RejectionOf;
    assert (before.keep + [s])[..|before.keep|] == before.keep;
  }
}
