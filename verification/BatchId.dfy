/** The batch-id search over a session calendar (packages/shared/batch.ts, and the caching
    reader of api/src/mempool.ts). */
module BatchId {
  import opened Common

  const MAX_STEPS: nat := 64
  const DEFAULT_SOLUTION_WINDOW: nat := 10
  const MAX_SPANS: nat := 64

  /** What a chain reader answers. A duration of zero means the session runs no ordinary batch. */
  datatype Calendar = Calendar(sessionAt: nat -> nat, batchDuration: nat -> nat, inGuardBand: nat -> bool,
    nextTransition: nat -> nat)

  datatype Batch = Batch(batchId: nat, collectStart: int, collectEnd: nat, solveEnd: nat, session: nat, duration: nat)

  datatype NoBatchReason = AuctionPhase | GuardBand | WindowClosed | SearchExhausted

  datatype Lookup = Found(batch: Batch) | NoBatch(reason: NoBatchReason, retryAt: Option<nat>)

  function WindowOf(batchId: nat, duration: nat, session: nat, solutionWindow: nat): Batch
  {
    Batch(batchId, batchId - duration, batchId, batchId + solutionWindow, session, duration)
  }

  function DurationAt(cal: Calendar, t: nat): nat { cal.batchDuration(cal.sessionAt(t)) }

  /** isValidBatchId: the three questions the settlement contract asks of an id. */
  predicate IsValidBatchId(cal: Calendar, id: nat)
  {
    DurationAt(cal, id) != 0 && id % DurationAt(cal, id) == 0 && !cal.inGuardBand(id)
  }

  // ----- nextValidBatchId

  function Aligned(cursor: nat, d: nat): nat
    requires d > 0
  {
    (cursor + d - 1) / d * d
  }

  /** The search from a cursor with some steps left. */
  function Search(cal: Calendar, cursor: nat, steps: nat, solutionWindow: nat): Lookup
    decreases steps
  {
    if steps == 0 then NoBatch(SearchExhausted, Some(cursor))
    else
      var d := DurationAt(cal, cursor);
      if d == 0 then
        if cal.nextTransition(cursor) <= cursor then NoBatch(AuctionPhase, None)
        else Search(cal, cal.nextTransition(cursor), steps - 1, solutionWindow)
      else if Aligned(cursor, d) != cursor then Search(cal, Aligned(cursor, d), steps - 1, solutionWindow)
      else if cal.inGuardBand(cursor) then Search(cal, cursor + 1, steps - 1, solutionWindow)
      else Found(WindowOf(cursor, d, cal.sessionAt(cursor), solutionWindow))
  }

  function NextValidBatchId(cal: Calendar, from: nat, solutionWindow: nat): Lookup
  {
    Search(cal, from + 1, MAX_STEPS, solutionWindow)
  }

  /** The loop over a moving cursor. */
  method NextValidLoop(cal: Calendar, from: nat, solutionWindow: nat) returns (r: Lookup)
    ensures r == NextValidBatchId(cal, from, solutionWindow)
  {
    var cursor: nat := from + 1;
    for step := 0 to MAX_STEPS
      invariant NextValidBatchId(cal, from, solutionWindow) == Search(cal, cursor, MAX_STEPS - step, solutionWindow)
    {
      var session := cal.sessionAt(cursor);
      var d := cal.batchDuration(session);
      hide NextValidBatchId;
      if d == 0 {
        var transition := cal.nextTransition(cursor);
        if transition <= cursor {
          return NoBatch(AuctionPhase, None);
        }
        cursor := transition;
      } else {
        var aligned := Aligned(cursor, d);
        hide Aligned;
        if aligned != cursor {
          cursor := aligned;
        } else if cal.inGuardBand(cursor) {
          cursor := cursor + 1;
        } else {
          return Found(WindowOf(cursor, d, session, solutionWindow));
        }
      }
    }
    r := NoBatch(SearchExhausted, Some(cursor));
  }

  lemma AlignedIs(cursor: nat, d: nat)
    requires d > 0
    ensures cursor <= Aligned(cursor, d) && Aligned(cursor, d) % d == 0
    ensures Aligned(cursor, d) == cursor <==> cursor % d == 0
    ensures forall m: nat :: cursor <= m < Aligned(cursor, d) ==> m % d != 0
  {
    var q := (cursor + d - 1) / d;
    FloorDiv(cursor + d - 1, d, q);
    MultipleOf(q, d);
    forall m: nat | cursor <= m && m % d == 0 ensures Aligned(cursor, d) <= m {
      NextMultiple(cursor, d, m);
    }
  }

  lemma NextMultiple(cursor: nat, d: nat, m: nat)
    requires d > 0 && cursor <= m && m % d == 0
    ensures Aligned(cursor, d) <= m
  {
    var q, k := (cursor + d - 1) / d, m / d;
    assert m == k * d;
    FloorDiv(cursor + d - 1, d, k + 1);
    assert (k + 1) * d == k * d + d;
    MulMono(q, k, d);
  }

  lemma MultipleOf(q: nat, d: nat)
    requires d > 0
    ensures q * d % d == 0
  {
    FloorDiv(q * d, d, q);
    FloorDiv(q * d, d, q + 1);
    assert (q + 1) * d == q * d + d;
    assert q * d == q * d / d * d + q * d % d;
  }

  /** Whatever the calendar, an id found is after the start and one the contract accepts. */
  lemma {:induction false} SearchFindsValid(cal: Calendar, cursor: nat, steps: nat, solutionWindow: nat)
    ensures match Search(cal, cursor, steps, solutionWindow)
      case Found(b) =>
        && b.batchId >= cursor && IsValidBatchId(cal, b.batchId)
        && b == WindowOf(b.batchId, DurationAt(cal, b.batchId), cal.sessionAt(b.batchId), solutionWindow)
      case NoBatch(_, _) => true
    decreases steps
  {
    hide Aligned;
    if steps > 0 {
      var d := DurationAt(cal, cursor);
      if d == 0 {
        SearchFindsValid(cal, cal.nextTransition(cursor), steps - 1, solutionWindow);
      } else {
        AlignedIs(cursor, d);
        SearchFindsValid(cal, Aligned(cursor, d), steps - 1, solutionWindow);
        SearchFindsValid(cal, cursor + 1, steps - 1, solutionWindow);
      }
    }
  }

  /** No session change lies between a second and its next transition. */
  ghost predicate Steady(cal: Calendar)
  {
    forall t: nat, u: nat :: t <= u && (u < cal.nextTransition(t) || cal.nextTransition(t) <= t) ==>
      cal.sessionAt(u) == cal.sessionAt(t)
  }

  /** Each session that runs batches ends on a multiple of its own duration. */
  ghost predicate EndsAligned(cal: Calendar)
  {
    forall t: nat :: DurationAt(cal, t) > 0 && cal.nextTransition(t) > t ==>
      cal.nextTransition(t) % DurationAt(cal, t) == 0
  }

  /** Rounding a second up to its own session's duration never carries it over a valid id of a later session. */
  ghost predicate NoneMissed(cal: Calendar)
  {
    forall c: nat, u: nat ::
      DurationAt(cal, c) > 0 && c < cal.nextTransition(c) <= u < Aligned(c, DurationAt(cal, c)) ==>
        !IsValidBatchId(cal, u)
  }

  lemma AlignedEndsMissNone(cal: Calendar)
    requires EndsAligned(cal)
    ensures NoneMissed(cal)
  {
    hide Aligned;
    forall c: nat | DurationAt(cal, c) > 0 && cal.nextTransition(c) > c
      ensures Aligned(c, DurationAt(cal, c)) <= cal.nextTransition(c) {
      AlignedIs(c, DurationAt(cal, c));
    }
  }

  /** What an answer is meant to leave out: every id before the one found, or before the point reached, or at all. */
  ghost predicate SkipsNone(cal: Calendar, cursor: nat, r: Lookup)
  {
    match r
    case Found(b) => forall id :: cursor <= id < b.batchId ==> !IsValidBatchId(cal, id)
    case NoBatch(_, Some(reached)) => forall id :: cursor <= id < reached ==> !IsValidBatchId(cal, id)
    case NoBatch(_, None) => forall id :: cursor <= id ==> !IsValidBatchId(cal, id)
  }

  /** On such a calendar the search skips no valid id. */
  lemma {:induction false} SearchIsLeast(cal: Calendar, cursor: nat, steps: nat, solutionWindow: nat)
    requires Steady(cal) && NoneMissed(cal)
    ensures SkipsNone(cal, cursor, Search(cal, cursor, steps, solutionWindow))
    decreases steps
  {
    hide Aligned;
    if steps > 0 {
      var d := DurationAt(cal, cursor);
      if d == 0 {
        forall id: nat | cursor <= id && (id < cal.nextTransition(cursor) || cal.nextTransition(cursor) <= cursor)
          ensures !IsValidBatchId(cal, id) {
          assert cal.sessionAt(id) == cal.sessionAt(cursor);
        }
        SearchIsLeast(cal, cal.nextTransition(cursor), steps - 1, solutionWindow);
      } else {
        AlignedIs(cursor, d);
        if Aligned(cursor, d) != cursor {
          SearchIsLeast(cal, Aligned(cursor, d), steps - 1, solutionWindow);
          forall id: nat | cursor <= id < Aligned(cursor, d) ensures !IsValidBatchId(cal, id) {
            assert cal.nextTransition(cursor) <= cursor || id < cal.nextTransition(cursor) ==>
              cal.sessionAt(id) == cal.sessionAt(cursor);
          }
        } else {
          SearchIsLeast(cal, cursor + 1, steps - 1, solutionWindow);
        }
      }
    }
  }

  /** The search only moves forward. */
  lemma {:induction false} SearchReaches(cal: Calendar, cursor: nat, steps: nat, solutionWindow: nat)
    ensures match Search(cal, cursor, steps, solutionWindow)
      case Found(b) => b.batchId >= cursor
      case NoBatch(_, Some(reached)) => reached >= cursor
      case NoBatch(_, None) => true
    decreases steps
  {
    hide Aligned;
    if steps > 0 {
      var d := DurationAt(cal, cursor);
      SearchReaches(cal, cal.nextTransition(cursor), steps - 1, solutionWindow);
      SearchReaches(cal, cursor + 1, steps - 1, solutionWindow);
      if d > 0 {
        AlignedIs(cursor, d);
        SearchReaches(cal, Aligned(cursor, d), steps - 1, solutionWindow);
      }
    }
  }

  /** From every start the answer leaves out no valid id, exactly when rounding never carries a second over one. */
  lemma LeastExactly(cal: Calendar, solutionWindow: nat)
    requires Steady(cal)
    ensures (forall from: nat :: SkipsNone(cal, from + 1, NextValidBatchId(cal, from, solutionWindow))) <==>
      NoneMissed(cal)
  {
    hide Search, SkipsNone, Aligned, IsValidBatchId;
    if NoneMissed(cal) {
      forall from: nat ensures SkipsNone(cal, from + 1, NextValidBatchId(cal, from, solutionWindow)) {
        SearchIsLeast(cal, from + 1, MAX_STEPS, solutionWindow);
      }
    } else {
      var c: nat, u: nat :| DurationAt(cal, c) > 0 && cal.nextTransition(c) > c
        && cal.nextTransition(c) <= u < Aligned(c, DurationAt(cal, c))
        && IsValidBatchId(cal, u);
      MissedFrom(cal, c, u, solutionWindow);
      assert !SkipsNone(cal, c - 1 + 1, NextValidBatchId(cal, c - 1, solutionWindow));
    }
  }

  /** Asked just before a second that is rounded up, the search goes on from the rounded one. */
  lemma RoundsUp(cal: Calendar, c: nat, solutionWindow: nat)
    requires DurationAt(cal, c) > 0 && c < Aligned(c, DurationAt(cal, c))
    ensures c > 0
    ensures NextValidBatchId(cal, c - 1, solutionWindow) ==
      Search(cal, Aligned(c, DurationAt(cal, c)), MAX_STEPS - 1, solutionWindow)
  {
    hide Aligned;
    AlignedIs(c, DurationAt(cal, c));
  }

  /** Asked just before a valid id, the search answers it. */
  lemma ValidIsAnswered(cal: Calendar, u: nat, solutionWindow: nat)
    requires u > 0 && IsValidBatchId(cal, u)
    ensures NextValidBatchId(cal, u - 1, solutionWindow) ==
      Found(WindowOf(u, DurationAt(cal, u), cal.sessionAt(u), solutionWindow))
  {
    hide Aligned;
    AlignedIs(u, DurationAt(cal, u));
  }

  /** An id rounded over is passed by the search from just before the rounding, and answered from just before itself. */
  lemma MissedAnswers(cal: Calendar, c: nat, u: nat, solutionWindow: nat)
    requires DurationAt(cal, c) > 0 && c < u < Aligned(c, DurationAt(cal, c)) && IsValidBatchId(cal, u)
    ensures c > 0
    ensures var r := NextValidBatchId(cal, c - 1, solutionWindow); r.Found? ==> r.batch.batchId > u
    ensures NextValidBatchId(cal, u - 1, solutionWindow).Found?
    ensures NextValidBatchId(cal, u - 1, solutionWindow).batch.batchId == u
  {
    hide Search, NextValidBatchId, Aligned, IsValidBatchId;
    RoundsUp(cal, c, solutionWindow);
    SearchReaches(cal, Aligned(c, DurationAt(cal, c)), MAX_STEPS - 1, solutionWindow);
    ValidIsAnswered(cal, u, solutionWindow);
  }

  lemma MissedFrom(cal: Calendar, c: nat, u: nat, solutionWindow: nat)
    requires DurationAt(cal, c) > 0 && c < u < Aligned(c, DurationAt(cal, c)) && IsValidBatchId(cal, u)
    ensures c > 0 && !SkipsNone(cal, c, NextValidBatchId(cal, c - 1, solutionWindow))
  {
    hide Search, NextValidBatchId, Aligned, IsValidBatchId;
    RoundsUp(cal, c, solutionWindow);
    SearchReaches(cal, Aligned(c, DurationAt(cal, c)), MAX_STEPS - 1, solutionWindow);
  }

  /** nextValidBatchId answers an id after `from` that the contract accepts; where sessions end on multiples of their
      own durations, the least one. */
  lemma NextIsValid(cal: Calendar, from: nat, solutionWindow: nat)
    requires NextValidBatchId(cal, from, solutionWindow).Found?
    ensures var id := NextValidBatchId(cal, from, solutionWindow).batch.batchId;
      && from < id && IsValidBatchId(cal, id)
      && (Steady(cal) && (EndsAligned(cal) || NoneMissed(cal)) ==> forall other :: from < other < id ==>
        !IsValidBatchId(cal, other))
  {
    SearchFindsValid(cal, from + 1, MAX_STEPS, solutionWindow);
    if EndsAligned(cal) { AlignedEndsMissNone(cal); }
    if Steady(cal) && NoneMissed(cal) {
      SearchIsLeast(cal, from + 1, MAX_STEPS, solutionWindow);
    }
  }

  /** Asked later, it never answers an earlier batch. */
  lemma NextMonotone(cal: Calendar, from: nat, later: nat, solutionWindow: nat)
    requires Steady(cal) && NoneMissed(cal) && from <= later
    requires NextValidBatchId(cal, from, solutionWindow).Found? && NextValidBatchId(cal, later, solutionWindow).Found?
    ensures NextValidBatchId(cal, from, solutionWindow).batch.batchId <=
      NextValidBatchId(cal, later, solutionWindow).batch.batchId
  {
    NextIsValid(cal, from, solutionWindow);
    NextIsValid(cal, later, solutionWindow);
  }

  /** A session of duration ten that ends at fifteen, before one of duration three. */
  function Misaligned(): Calendar
  {
    Calendar((t: nat) => if t < 15 then 0 else 1, (s: nat) => if s == 0 then 10 else 3, (_: nat) => false, (t: nat) =>
      if t < 15 then 15 else 0)
  }

  /** Without the alignment the answer need not be the least: here 15 is valid, and the search from 10 answers 21. */
  lemma NotAlwaysLeast()
    ensures Steady(Misaligned()) && !EndsAligned(Misaligned())
    ensures NextValidBatchId(Misaligned(), 10, DEFAULT_SOLUTION_WINDOW).Found?
    ensures NextValidBatchId(Misaligned(), 10, DEFAULT_SOLUTION_WINDOW).batch.batchId == 21
    ensures IsValidBatchId(Misaligned(), 15)
  {
    var cal := Misaligned();
    assert DurationAt(cal, 0) == 10 && cal.nextTransition(0) == 15;
    assert Search(cal, 21, MAX_STEPS - 2, DEFAULT_SOLUTION_WINDOW).batch.batchId == 21;
    assert Search(cal, 20, MAX_STEPS - 1, DEFAULT_SOLUTION_WINDOW) ==
      Search(cal, 21, MAX_STEPS - 2, DEFAULT_SOLUTION_WINDOW);
    assert Search(cal, 11, MAX_STEPS, DEFAULT_SOLUTION_WINDOW) ==
      Search(cal, 20, MAX_STEPS - 1, DEFAULT_SOLUTION_WINDOW);
  }

  /** On the same calendar a later start is answered with an earlier batch than 21. */
  lemma MisalignedGoesBack()
    ensures NextValidBatchId(Misaligned(), 14, DEFAULT_SOLUTION_WINDOW).Found?
    ensures NextValidBatchId(Misaligned(), 14, DEFAULT_SOLUTION_WINDOW).batch.batchId == 15
  {
    assert Search(Misaligned(), 15, MAX_STEPS, DEFAULT_SOLUTION_WINDOW).batch.batchId == 15;
  }

  // ----- solvableBatchId

  function SolvableBatchId(cal: Calendar, now: nat, solutionWindow: nat): Lookup
    requires now > 0
  {
    var d := DurationAt(cal, now);
    if d == 0 then NoBatch(AuctionPhase, None)
    else
      var candidate := (now - 1) / d * d;
      assert (now - 1) / d >= 0;
      if now > candidate + solutionWindow then
        match NextValidBatchId(cal, now, solutionWindow)
        case Found(b) => NoBatch(WindowClosed, Some(b.collectEnd + 1))
        case NoBatch(_, _) => NoBatch(WindowClosed, None)
      else if DurationAt(cal, candidate) == 0
        || candidate % DurationAt(cal, candidate) != 0 then NoBatch(AuctionPhase, None)
      else if cal.inGuardBand(candidate) then NoBatch(GuardBand, None)
      else Found(WindowOf(candidate, DurationAt(cal, candidate), cal.sessionAt(candidate), solutionWindow))
  }

  /** A batch answered is valid and its solution window is open; and a valid batch whose window is open is the one
      answered exactly when it is the last multiple, before now, of the duration of the session running now. */
  lemma SolvableExact(cal: Calendar, now: nat, solutionWindow: nat)
    requires now > 0
    ensures match SolvableBatchId(cal, now, solutionWindow)
      case Found(b) => IsValidBatchId(cal, b.batchId) && b.batchId < now <= b.solveEnd == b.batchId + solutionWindow
      case NoBatch(_, _) => true
    ensures forall id: nat :: IsValidBatchId(cal, id) && id < now <= id + solutionWindow ==>
      (SolvableBatchId(cal, now, solutionWindow) ==
         Found(WindowOf(id, DurationAt(cal, id), cal.sessionAt(id), solutionWindow)) <==>
       DurationAt(cal, now) > 0 && id == (now - 1) / DurationAt(cal, now) * DurationAt(cal, now))
  {
    var d := DurationAt(cal, now);
    if d > 0 {
      FloorDiv(now - 1, d, 0);
    }
    hide NextValidBatchId;
  }

  /** So while its session runs, and its batches are no shorter than the window, an open batch is always answered. */
  lemma SolvableInSession(cal: Calendar, now: nat, solutionWindow: nat, id: nat)
    requires now > 0
    requires OpenInSession(cal, id, now, solutionWindow) && solutionWindow <= DurationAt(cal, now)
    ensures SolvableBatchId(cal, now, solutionWindow) ==
      Found(WindowOf(id, DurationAt(cal, now), cal.sessionAt(now), solutionWindow))
  {
    OnlyCandidate(id, now, DurationAt(cal, now));
    SolvableExact(cal, now, solutionWindow);
    hide SolvableBatchId;
  }

  /** A valid batch of the session running now, with its solution window open. */
  predicate OpenInSession(cal: Calendar, id: nat, now: nat, solutionWindow: nat)
  {
    IsValidBatchId(cal, id) && id < now <= id + solutionWindow && cal.sessionAt(id) == cal.sessionAt(now)
  }

  lemma OnlyCandidate(id: nat, now: nat, d: nat)
    requires d > 0 && id % d == 0 && id < now <= id + d
    ensures id == (now - 1) / d * d
  {
    assert id == id / d * d;
    FloorDiv(now - 1, d, id / d);
    FloorDiv(now - 1, d, id / d + 1);
    assert (id / d + 1) * d == id / d * d + d;
  }

  /** A session of duration ten that ends after second twenty, before an auction phase. */
  function BeforeAuction(): Calendar
  {
    Calendar((t: nat) => if t <= 20 then 0 else 1, (s: nat) => if s == 0 then 10 else 0, (_: nat) => false,
      (t: nat) => if t <= 20 then 21 else 0)
  }

  /** Once its session has ended an open batch can be missed: batch 20 takes solutions until 30, and at 23 the answer is
      that there is no batch. */
  lemma JustEndedIsMissed()
    ensures Steady(BeforeAuction())
    ensures IsValidBatchId(BeforeAuction(), 20) && 20 < 23 <= 20 + DEFAULT_SOLUTION_WINDOW
    ensures SolvableBatchId(BeforeAuction(), 23, DEFAULT_SOLUTION_WINDOW) == NoBatch(AuctionPhase, None)
  {
    var cal := BeforeAuction();
    assert DurationAt(cal, 20) == 10 && DurationAt(cal, 23) == 0;
  }

  // ----- the caching reader

  datatype Span = Span(from: nat, to: nat)

  /** From a second asked to the transition answered, every second answers that transition. */
  ghost predicate Truthful(next: nat -> nat)
  {
    forall t: nat, u: nat :: t <= u < next(t) ==> next(u) == next(t)
  }

  predicate Covers(s: Span, t: nat) { s.from <= t < s.to }

  ghost predicate SpansHold(spans: seq<Span>, next: nat -> nat)
  {
    |spans| <= MAX_SPANS && forall s :: s in spans ==> forall t: nat :: Covers(s, t) ==> next(t) == s.to
  }

  datatype Answer = Answer(to: nat, spans: seq<Span>)

  function FirstCovering(spans: seq<Span>, t: nat): Option<Span>
  {
    if spans == [] then None else if Covers(spans[0], t) then Some(spans[0]) else FirstCovering(spans[1..], t)
  }

  /** One call through the cache. */
  function Ask(spans: seq<Span>, base: nat -> nat, from: nat): Answer
  {
    match FirstCovering(spans, from)
    case Some(hit) => Answer(hit.to, spans)
    case None =>
      var to := base(from);
      if to <= from then Answer(to, spans)
      else Answer(to, (if |spans| >= MAX_SPANS then spans[1..] else spans) + [Span(from, to)])
  }

  lemma {:induction false} CoveringHolds(spans: seq<Span>, t: nat)
    ensures FirstCovering(spans, t).Some? ==>
      FirstCovering(spans, t).value in spans && Covers(FirstCovering(spans, t).value, t)
  {
    if spans != [] && !Covers(spans[0], t) {
      CoveringHolds(spans[1..], t);
    }
  }

  lemma AskIsTrue(spans: seq<Span>, base: nat -> nat, from: nat)
    requires Truthful(base) && SpansHold(spans, base)
    ensures Ask(spans, base, from).to == base(from) && SpansHold(Ask(spans, base, from).spans, base)
  {
    CoveringHolds(spans, from);
    if FirstCovering(spans, from).None? && base(from) > from {
      var kept := if |spans| >= MAX_SPANS then spans[1..] else spans;
      assert forall s :: s in kept ==> s in spans;
    }
  }

  /** The spans after a list of calls. */
  function SpansAfter(base: nat -> nat, froms: seq<nat>): seq<Span>
  {
    if froms == [] then [] else Ask(SpansAfter(base, froms[..|froms| - 1]), base, froms[|froms| - 1]).spans
  }

  /** For every sequence of calls, the next one answers as the reader without the cache would, and at most 64
      spans are kept. */
  lemma {:induction false} CacheIsTransparent(base: nat -> nat, froms: seq<nat>, from: nat)
    requires Truthful(base)
    ensures SpansHold(SpansAfter(base, froms), base)
    ensures Ask(SpansAfter(base, froms), base, from).to == base(from)
  {
    if froms != [] {
      CacheIsTransparent(base, froms[..|froms| - 1], froms[|froms| - 1]);
      AskIsTrue(SpansAfter(base, froms[..|froms| - 1]), base, froms[|froms| - 1]);
    }
    AskIsTrue(SpansAfter(base, froms), base, from);
  }

  /** rememberTransitions: the reader with its list of spans. */
  class RememberTransitions {
    const base: nat -> nat
    var spans: seq<Span>

    constructor (base: nat -> nat)
      ensures this.base == base && spans == []
    {
      this.base := base;
      spans := [];
    }

    method NextTransition(from: nat) returns (to: nat)
      modifies this
      ensures Answer(to, spans) == Ask(old(spans), base, from)
    {
      for k := 0 to |spans|
        invariant spans == old(spans)
        invariant FirstCovering(spans, from) == FirstCovering(spans[k..], from)
      {
        assert spans[k..][1..] == spans[k + 1..];
        if Covers(spans[k], from) {
          return spans[k].to;
        }
      }
      to := base(from);
      if to > from {
        if |spans| >= MAX_SPANS {
          spans := spans[1..];
        }
        spans := spans + [Span(from, to)];
      }
    }
  }
}
