/** Opening and closing batches while a fast poll interleaves with a slow tick (api/src/lifecycle.ts). */
module Lifecycle {
  import opened Common
  import BatchId

  const MAX_TRACKED: nat := 8
  const FINALIZE_DEADLINE: int := 300

  datatype Tracked = Tracked(id: nat, solveEnd: int, closed: bool)

  /** The batch frames published, in order. */
  datatype Frame = Opened(id: nat, at: int) | CollectClosed(id: nat, at: int)

  /** A head the poll saw; on a fork its time is not read until the tick asks for the block. */
  datatype Head = Head(time: int, known: bool)

  /** Where the one running tick is. Between two phases other code may run. */
  datatype Phase = Idle | Starting(head: Head) | Reading(at: int) | Ending

  /** The batch openWindow names at a second, if it names one. */
  datatype Window = Window(id: nat, solveEnd: int)

  datatype State = State(
    lastTime: Option<int>, current: Option<nat>, tracked: seq<Tracked>, closedAt: Option<int>, frames: seq<Frame>,
    queued: Option<Head>, phase: Phase)

  function Start(): State { State(None, None, [], None, [], None, Idle) }

  function Later(closedAt: Option<int>, t: int): int
  {
    match closedAt case Some(c) => if c > t then c else t case None => t
  }

  // ----- closeDue

  predicate IsCollectClosed(id: nat, t: int) { t > id }

  datatype Closing = Closing(tracked: seq<Tracked>, closedAt: Option<int>, frames: seq<Frame>)

  /** One entry of the pass: close it if its collection is over, forget it once its finalize deadline has passed. */
  function CloseOne(c: Closing, e: Tracked, t: int): Closing
  {
    var due := !e.closed && IsCollectClosed(e.id, t);
    Closing(
      if t > e.solveEnd + FINALIZE_DEADLINE then c.tracked else c.tracked + [if due then e.(closed := true) else e],
      if due then Some(Later(c.closedAt, t)) else c.closedAt,
      if due then c.frames + [CollectClosed(e.id, t)] else c.frames)
  }

  function CloseScan(entries: seq<Tracked>, c: Closing, t: int): Closing
  {
    if entries == [] then c else CloseOne(CloseScan(entries[..|entries| - 1], c, t), entries[|entries| - 1], t)
  }

  function CloseDue(s: State, t: int): State
  {
    var c := CloseScan(s.tracked, Closing([], s.closedAt, s.frames), t);
    s.(tracked := c.tracked, closedAt := c.closedAt, frames := c.frames)
  }

  // ----- a tick

  /** The synchronous front of a tick. Time going backwards drops everything instead of closing it. */
  function TickStart(s: State, t: int): State
  {
    var kept := if s.lastTime.Some? && t < s.lastTime.value
      then s.(lastTime := None, current := None, tracked := [], closedAt := None) else s;
    CloseDue(kept.(lastTime := Some(t)), t)
  }

  predicate OlderOpen(tracked: seq<Tracked>, id: nat)
  {
    exists e :: e in tracked && !e.closed && e.id < id
  }

  /** Drops closed entries, oldest first, until the cap holds. */
  function Evict(kept: seq<Tracked>, rest: seq<Tracked>): seq<Tracked>
    decreases |rest|
  {
    if |kept| + |rest| <= MAX_TRACKED || rest == [] then kept + rest
    else if rest[0].closed then Evict(kept, rest[1..])
    else Evict(kept + [rest[0]], rest[1..])
  }

  /** tracked.set: the entry's own place if it is known, a new last place otherwise. */
  function SetTracked(tracked: seq<Tracked>, e: Tracked): seq<Tracked>
  {
    if exists x :: x in tracked && x.id == e.id
    then seq(|tracked|, k requires 0 <= k < |tracked| => if tracked[k].id == e.id then e else tracked[k])
    else tracked + [e]
  }

  /** What follows the read of the current batch: the open, held back while an older batch has not closed,
      and the cap. */
  function AfterClose(s: State, t: int, current: Option<Window>): State
  {
    var after :=
      match current
      case None => s
      case Some(w) =>
        if OlderOpen(s.tracked, w.id) || s.current == Some(w.id) then s
        else s.(current := Some(w.id), tracked := SetTracked(s.tracked, Tracked(w.id, w.solveEnd, false)),
                frames := s.frames + [Opened(w.id, Later(s.closedAt, t))]);
    after.(tracked := Evict([], after.tracked))
  }

  // ----- steps

  datatype Event =
    | Poll(head: Head)
    | Begin
    | Answer(current: Option<Window>)
    | Fail
    | Finish

  /** A tick on a head whose time is known runs up to its first read at once; otherwise it first asks for the block. */
  function Launch(s: State, head: Head): State
  {
    if head.known then TickStart(s, head.time).(phase := Reading(head.time)) else s.(phase := Starting(head))
  }

  /** One step between two awaits. A poll that finds a tick busy queues its head and closes what is due. */
  function Step(s: State, e: Event): State
  {
    match e
    case Poll(head) =>
      if s.phase == Idle then Launch(s.(queued := None), head)
      else
        var queued := s.(queued := Some(head));
        if head.known && s.lastTime.Some? && head.time >= s.lastTime.value then CloseDue(queued, head.time) else queued
    case Begin =>
      (match s.phase
       case Starting(head) => TickStart(s, head.time).(phase := Reading(head.time))
       case _ => s)
    case Answer(current) =>
      (match s.phase
       case Reading(at) => AfterClose(s, at, current).(phase := Ending)
       case _ => s)
    case Fail => if s.phase == Idle then s else s.(phase := Ending)
    case Finish =>
      if s.phase != Ending then s
      else match s.queued
        case Some(head) => Launch(s.(queued := None), head)
        case None => s.(phase := Idle)
  }

  function Run(events: seq<Event>): State
  {
    if events == [] then Start() else Step(Run(events[..|events| - 1]), events[|events| - 1])
  }

  // ----- the coordinator's own variables

  class Coordinator {
    var lastTime: Option<int>
    var current: Option<nat>
    var tracked: seq<Tracked>
    var closedAt: Option<int>
    var frames: seq<Frame>
    var queued: Option<Head>
    var phase: Phase

    constructor ()
      ensures Now() == Start()
    {
      lastTime, current, tracked, closedAt, frames, queued, phase := None, None, [], None, [], None, Idle;
    }

    function Now(): State
      reads this
    {
      State(lastTime, current, tracked, closedAt, frames, queued, phase)
    }

    /** closeDue: the pass over the tracked batches. */
    method CloseBatches(t: int)
      modifies this
      ensures Now() == CloseDue(old(Now()), t)
    {
      ghost var was := Now();
      var entries := tracked;
      tracked := [];
      ghost var start := Closing([], closedAt, frames);
      for k := 0 to |entries|
        invariant Closing(tracked, closedAt, frames) == CloseScan(entries[..k], start, t)
        invariant Now() == was.(tracked := tracked, closedAt := closedAt, frames := frames)
      {
        assert entries[..k + 1][..k] == entries[..k];
        var e := entries[k];
        if !e.closed && IsCollectClosed(e.id, t) {
          e := e.(closed := true);
          closedAt := Some(Later(closedAt, t));
          frames := frames + [CollectClosed(e.id, t)];
        }
        if t <= e.solveEnd + FINALIZE_DEADLINE {
          tracked := tracked + [e];
        }
      }
      assert entries[..|entries|] == entries;
    }

    /** The front of tickOnce. */
    method BeginTick(t: int)
      modifies this
      ensures Now() == TickStart(old(Now()), t)
    {
      if lastTime.Some? && t < lastTime.value {
        current, tracked, closedAt := None, [], None;
      }
      lastTime := Some(t);
      CloseBatches(t);
    }

    /** afterClose, from the answer on. */
    method OpenBatch(t: int, answer: Option<Window>)
      modifies this
      ensures Now() == AfterClose(old(Now()), t, answer)
    {
      if answer.Some? && !OlderOpen(tracked, answer.value.id) && current != Some(answer.value.id) {
        current := Some(answer.value.id);
        tracked := SetTracked(tracked, Tracked(answer.value.id, answer.value.solveEnd, false));
        frames := frames + [Opened(answer.value.id, Later(closedAt, t))];
      }
      var kept, rest := [], tracked;
      while rest != [] && |kept| + |rest| > MAX_TRACKED
        invariant Evict([], tracked) == Evict(kept, rest)
        decreases |rest|
      {
        if !rest[0].closed { kept := kept + [rest[0]]; }
        rest := rest[1..];
      }
      tracked := kept + rest;
    }

    method LaunchTick(head: Head)
      modifies this
      ensures Now() == Launch(old(Now()), head)
    {
      if head.known {
        BeginTick(head.time);
        phase := Reading(head.time);
      } else {
        phase := Starting(head);
      }
    }

    /** drive, as far as a poll alone runs it. */
    method SeeHead(head: Head)
      modifies this
      ensures Now() == Step(old(Now()), Poll(head))
    {
      if phase == Idle {
        queued := None;
        LaunchTick(head);
        return;
      }
      queued := Some(head);
      if head.known && lastTime.Some? && head.time >= lastTime.value {
        CloseBatches(head.time);
      }
    }

    /** The tick's own steps. */
    method Advance(e: Event)
      requires !e.Poll?
      modifies this
      ensures Now() == Step(old(Now()), e)
    {
      match e {
        case Begin =>
          if phase.Starting? {
            var t := phase.head.time;
            BeginTick(t);
            phase := Reading(t);
          }
        case Answer(answer) =>
          if phase.Reading? {
            OpenBatch(phase.at, answer);
            phase := Ending;
          }
        case Fail =>
          if phase != Idle { phase := Ending; }
        case Finish =>
          if phase == Ending {
            if queued.Some? {
              var next := queued.value;
              queued := None;
              LaunchTick(next);
            } else {
              phase := Idle;
            }
          }
      }
    }
  }

  // ----- the runs

  /** Head times never fall, and a coordinator either always or never learns a head's time with it. */
  ghost predicate HeadsRise(events: seq<Event>, known: bool)
  {
    && (forall k :: 0 <= k < |events| && events[k].Poll? ==> events[k].head.known == known && events[k].head.time >= 0)
    && (forall j, k :: 0 <= j < k < |events| && events[j].Poll? && events[k].Poll? ==>
      events[j].head.time <= events[k].head.time)
  }

  predicate Names(e: Event) { e.Answer? && e.current.Some? }

  /** The search of the calendar, asked at a second, answers this batch. */
  predicate AnswersAt(cal: BatchId.Calendar, t: nat, id: nat)
  {
    var r := BatchId.NextValidBatchId(cal, t, BatchId.DEFAULT_SOLUTION_WINDOW);
    r.Found? && r.batch.batchId == id
  }

  /** openWindow at a second names the batch the search answers, or none. */
  predicate Tells(cal: BatchId.Calendar, at: int, w: Window)
  {
    at >= 0 && AnswersAt(cal, at, w.id) && w.solveEnd == w.id + BatchId.DEFAULT_SOLUTION_WINDOW
  }

  /** Every answer a tick reads is the calendar's at the second of that tick. */
  ghost predicate Told(cal: BatchId.Calendar, events: seq<Event>)
  {
    if events == [] then true
    else
      var init, e := events[..|events| - 1], events[|events| - 1];
      Told(cal, init) && (Names(e) && Run(init).phase.Reading? ==> Tells(cal, Run(init).phase.at, e.current.value))
  }

  /** Asked later, the search never answers an earlier batch. */
  ghost predicate NeverGoesBack(cal: BatchId.Calendar)
  {
    forall t: nat, u: nat, i: nat, j: nat :: t <= u && AnswersAt(cal, t, i) && AnswersAt(cal, u, j) ==> i <= j
  }

  /** The frames are opens and closes in turn, each close ending the open before it, ids rising, times never falling. */
  ghost predicate Paired(frames: seq<Frame>)
  {
    && (frames != [] ==> frames[0].Opened?)
    && (forall k :: 0 < k < |frames| ==> Follows(frames[k - 1], frames[k]))
  }

  predicate Follows(f: Frame, g: Frame)
  {
    && f.at <= g.at
    && if g.Opened? then f.CollectClosed? && f.id < g.id else f.Opened? && f.id == g.id
  }

  /** The last frame is an open. */
  predicate AnOpenBatch(frames: seq<Frame>) { frames != [] && frames[|frames| - 1].Opened? }

  function LastId(frames: seq<Frame>): Option<nat>
  {
    if frames == [] then None else Some(frames[|frames| - 1].id)
  }

  /** Tracked ids rise to the current one, and only that one may be unclosed: it is, until its close frame. */
  ghost predicate TracksFrames(tracked: seq<Tracked>, frames: seq<Frame>)
  {
    && Rising(tracked)
    && (forall e :: e in tracked ==> FitsFrames(e, frames))
    && (AnOpenBatch(frames) ==> tracked != [] && LastId(frames) == Some(tracked[|tracked| - 1].id))
    && |tracked| <= MAX_TRACKED
  }

  predicate FitsFrames(e: Tracked, frames: seq<Frame>)
  {
    && e.solveEnd >= e.id - FINALIZE_DEADLINE
    && frames != [] && e.id <= frames[|frames| - 1].id
    && (!e.closed <==> AnOpenBatch(frames) && LastId(frames) == Some(e.id))
  }

  ghost predicate Rising(tracked: seq<Tracked>)
  {
    forall j, k :: 0 <= j < k < |tracked| ==> tracked[j].id < tracked[k].id
  }

  /** Nothing published or remembered is later than t. */
  ghost predicate Bounded(s: State, t: int)
  {
    && (s.lastTime.Some? ==> s.lastTime.value <= t)
    && (s.closedAt.Some? ==> s.closedAt.value <= t)
    && (s.frames != [] ==> s.frames[|s.frames| - 1].at <= t)
  }

  /** A close frame that is the last frame is no later than closedAt, so an open stamped at least
      closedAt follows it. */
  ghost predicate ClosedAtKept(frames: seq<Frame>, closedAt: Option<int>)
  {
    frames != [] && !AnOpenBatch(frames) ==> closedAt.Some? && frames[|frames| - 1].at <= closedAt.value
  }

  ghost predicate Timely(s: State, seen: int, known: bool)
  {
    && Bounded(s, seen)
    && (s.queued.Some? ==>
      Bounded(s, s.queued.value.time) && s.queued.value.time <= seen && s.queued.value.known == known)
    && (match s.phase
        case Starting(head) =>
          !known && head.known == known && Bounded(s, head.time) && head.time <= seen
          && (s.queued.Some? ==> head.time <= s.queued.value.time)
        case Reading(at) => at <= seen && (s.queued.Some? ==> at <= s.queued.value.time)
        case _ => true)
  }

  ghost predicate Inv(s: State)
  {
    Paired(s.frames) && TracksFrames(s.tracked, s.frames) && s.current == LastId(s.frames)
      && ClosedAtKept(s.frames, s.closedAt)
  }

  // ----- closing

  function Unexpired(t: int): Tracked -> bool { (e: Tracked) => t <= e.solveEnd + FINALIZE_DEADLINE }

  /** Over closed entries the pass only forgets. */
  lemma {:induction false} ScanClosed(entries: seq<Tracked>, c: Closing, t: int)
    requires forall e :: e in entries ==> e.closed
    ensures CloseScan(entries, c, t) == Closing(c.tracked + Filter(entries, Unexpired(t)), c.closedAt, c.frames)
  {
    if entries == [] {
      assert c.tracked + [] == c.tracked;
    } else {
      var init, last := entries[..|entries| - 1], entries[|entries| - 1];
      ScanClosed(init, c, t);
      assert last in entries;
      assert c.tracked + (Filter(init, Unexpired(t)) + [last]) == (c.tracked + Filter(init, Unexpired(t))) + [last];
    }
  }

  lemma {:induction false} FilterRising(tracked: seq<Tracked>, p: Tracked -> bool)
    requires Rising(tracked)
    ensures Rising(Filter(tracked, p))
  {
    if tracked != [] {
      var init, last := tracked[..|tracked| - 1], tracked[|tracked| - 1];
      FilterRising(init, p);
      forall k | 0 <= k < |Filter(init, p)| ensures Filter(init, p)[k].id < last.id {
        assert Filter(init, p)[k] in init;
        var j :| 0 <= j < |init| && init[j] == Filter(init, p)[k];
        assert tracked[j].id < tracked[|tracked| - 1].id;
      }
    }
  }

  lemma Above(tracked: seq<Tracked>, e: Tracked)
    requires Rising(tracked) && forall x :: x in tracked ==> x.id < e.id
    ensures Rising(tracked + [e])
  {
    forall j, k | 0 <= j < k < |tracked + [e]| ensures (tracked + [e])[j].id < (tracked + [e])[k].id {
      assert (tracked + [e])[j] in tracked;
    }
  }

  /** While a batch is open it is the last one tracked, and the rest are closed. */
  lemma AllButLast(tracked: seq<Tracked>, frames: seq<Frame>)
    requires TracksFrames(tracked, frames) && AnOpenBatch(frames)
    ensures tracked != []
    ensures var init, last := tracked[..|tracked| - 1], tracked[|tracked| - 1];
      && Some(last.id) == LastId(frames) && !last.closed && FitsFrames(last, frames)
      && Rising(init)
      && forall e :: e in init ==> e.closed && e.id < last.id && FitsFrames(e, frames)
  {
    var init, last := tracked[..|tracked| - 1], tracked[|tracked| - 1];
    assert last in tracked && FitsFrames(last, frames);
    forall e | e in init ensures e.closed && e.id < last.id && FitsFrames(e, frames) {
      var k :| 0 <= k < |init| && init[k] == e;
      assert tracked[k] in tracked && tracked[k].id < tracked[|tracked| - 1].id;
    }
  }

  predicate Due(s: State, t: int)
    requires s.current == LastId(s.frames)
  {
    AnOpenBatch(s.frames) && t > s.current.value
  }

  /** What a close pass does: at most one frame, for the one open batch, exactly when its collection is over. */
  lemma CloseDueIs(s: State, t: int)
    requires Inv(s)
    ensures var r := CloseDue(s, t);
      && r == s.(tracked := r.tracked, closedAt := r.closedAt, frames := r.frames)
      && if Due(s, t) then
           && r.frames == s.frames + [CollectClosed(s.current.value, t)] && r.closedAt == Some(Later(s.closedAt, t))
           && Rising(r.tracked) && |r.tracked| <= |s.tracked|
           && forall e :: e in r.tracked ==>
             e.closed && e.id <= s.current.value && e.solveEnd >= e.id - FINALIZE_DEADLINE
         else
           && r.frames == s.frames && r.closedAt == s.closedAt
           && r.tracked == Filter(s.tracked, Unexpired(t))
  {
    var start := Closing([], s.closedAt, s.frames);
    if AnOpenBatch(s.frames) {
      AllButLast(s.tracked, s.frames);
      var init, last := s.tracked[..|s.tracked| - 1], s.tracked[|s.tracked| - 1];
      hide TracksFrames, Paired;
      ScanClosed(init, start, t);
      FilterRising(init, Unexpired(t));
      assert [] + Filter(init, Unexpired(t)) == Filter(init, Unexpired(t));
      Above(Filter(init, Unexpired(t)), last.(closed := true));
    } else {
      AllClosed(s.tracked, s.frames);
      hide TracksFrames, Paired;
      ScanClosed(s.tracked, start, t);
      assert [] + Filter(s.tracked, Unexpired(t)) == Filter(s.tracked, Unexpired(t));
    }
  }

  lemma AllClosed(tracked: seq<Tracked>, frames: seq<Frame>)
    requires TracksFrames(tracked, frames) && !AnOpenBatch(frames)
    ensures forall e :: e in tracked ==> e.closed
  {
    forall e | e in tracked ensures e.closed {
      assert FitsFrames(e, frames);
    }
  }

  lemma PairMore(frames: seq<Frame>, f: Frame)
    requires Paired(frames)
    requires if frames == [] then f.Opened? else Follows(frames[|frames| - 1], f)
    ensures Paired(frames + [f])
  {
    var all := frames + [f];
    forall k | 0 < k < |all| ensures Follows(all[k - 1], all[k]) {
      if k < |frames| { assert Follows(frames[k - 1], frames[k]); }
    }
  }

  /** Closing at a second no earlier than anything published keeps the invariant. */
  lemma CloseKeeps(s: State, t: int)
    requires Inv(s) && Bounded(s, t)
    ensures Inv(CloseDue(s, t)) && Bounded(CloseDue(s, t), t)
    ensures var r := CloseDue(s, t);
      r == s.(tracked := r.tracked, closedAt := r.closedAt, frames := r.frames) && r.current == s.current
  {
    CloseDueIs(s, t);
    var r := CloseDue(s, t);
    hide CloseDue, Filter, Paired, TracksFrames, Rising;
    if Due(s, t) {
      PairMore(s.frames, CollectClosed(s.current.value, t));
      ClosingTracks(s.tracked, r.tracked, s.frames, CollectClosed(s.current.value, t));
    } else {
      QuietTracks(s.tracked, s.frames, t);
    }
  }

  lemma ClosingTracks(tracked: seq<Tracked>, left: seq<Tracked>, frames: seq<Frame>, f: Frame)
    requires TracksFrames(tracked, frames) && f.CollectClosed?
    requires Rising(left) && |left| <= |tracked|
    requires forall e :: e in left ==> e.closed && e.id <= f.id && e.solveEnd >= e.id - FINALIZE_DEADLINE
    ensures TracksFrames(left, frames + [f])
  {
    hide Rising;
    forall e | e in left ensures FitsFrames(e, frames + [f]) {
    }
  }

  lemma QuietTracks(tracked: seq<Tracked>, frames: seq<Frame>, t: int)
    requires TracksFrames(tracked, frames) && (AnOpenBatch(frames) ==> t <= frames[|frames| - 1].id)
    ensures TracksFrames(Filter(tracked, Unexpired(t)), frames)
  {
    FilterRising(tracked, Unexpired(t));
    if AnOpenBatch(frames) {
      AllButLast(tracked, frames);
      LastStays(tracked, Unexpired(t));
    }
    hide Rising, Filter, FitsFrames;
  }

  lemma LastStays(tracked: seq<Tracked>, p: Tracked -> bool)
    requires tracked != [] && p(tracked[|tracked| - 1])
    ensures Filter(tracked, p) != [] && Filter(tracked, p)[|Filter(tracked, p)| - 1] == tracked[|tracked| - 1]
  {
  }

  /** Every tracked batch whose collection is over has its close frame. */
  lemma ClosedPromptly(s: State, t: int)
    requires Inv(s)
    ensures forall e :: e in CloseDue(s, t).tracked && IsCollectClosed(e.id, t) ==> e.closed
  {
    CloseDueIs(s, t);
    hide CloseDue, Paired;
    if !Due(s, t) {
      forall e | e in Filter(s.tracked, Unexpired(t)) && IsCollectClosed(e.id, t) ensures e.closed {
        assert FitsFrames(e, s.frames);
      }
    }
  }

  lemma StartKeeps(s: State, t: int)
    requires Inv(s) && Bounded(s, t)
    ensures Inv(TickStart(s, t)) && Bounded(TickStart(s, t), t)
    ensures TickStart(s, t).queued == s.queued && TickStart(s, t).current == s.current
  {
    var marked := s.(lastTime := Some(t));
    assert TickStart(s, t) == CloseDue(marked, t);
    hide CloseDue, Paired, TracksFrames, TickStart;
    CloseKeeps(marked, t);
  }

  // ----- opening

  /** With at most the last entry unclosed, exactly the newest entries stay. */
  lemma {:induction false} EvictDrops(rest: seq<Tracked>)
    requires forall k :: 0 <= k < |rest| - 1 ==> rest[k].closed
    ensures Evict([], rest) == if |rest| <= MAX_TRACKED then rest else rest[|rest| - MAX_TRACKED..]
    decreases |rest|
  {
    if |rest| > MAX_TRACKED {
      EvictDrops(rest[1..]);
      if |rest| - 1 > MAX_TRACKED {
        assert rest[1..][|rest| - 1 - MAX_TRACKED..] == rest[|rest| - MAX_TRACKED..];
      }
    } else {
      assert [] + rest == rest;
    }
  }

  /** An open of a newer batch, with every older one closed. */
  lemma OpenTracks(tracked: seq<Tracked>, frames: seq<Frame>, e: Tracked, f: Frame)
    requires TracksFrames(tracked, frames) && !AnOpenBatch(frames)
    requires f.Opened? && f.id == e.id && !e.closed && e.solveEnd >= e.id - FINALIZE_DEADLINE
    requires frames != [] ==> frames[|frames| - 1].id < e.id
    ensures SetTracked(tracked, e) == tracked + [e]
    ensures TracksFrames(Evict([], tracked + [e]), frames + [f])
  {
    hide Evict, SetTracked, Rising;
    AllClosed(tracked, frames);
    forall x | x in tracked ensures x.id < e.id && FitsFrames(x, frames + [f]) {
      assert FitsFrames(x, frames);
    }
    assert FitsFrames(e, frames + [f]);
    SetAppends(tracked, e);
    Above(tracked, e);
    hide *;
    NewestTrack(tracked + [e], frames + [f]);
  }

  lemma SetAppends(tracked: seq<Tracked>, e: Tracked)
    requires forall x :: x in tracked ==> x.id < e.id
    ensures SetTracked(tracked, e) == tracked + [e]
  {
  }

  /** Evicting from a list whose last entry alone is unclosed. */
  lemma NewestTrack(all: seq<Tracked>, frames: seq<Frame>)
    requires all != [] && Rising(all) && forall e :: e in all ==> FitsFrames(e, frames)
    requires forall k :: 0 <= k < |all| - 1 ==> all[k].closed
    requires LastId(frames) == Some(all[|all| - 1].id)
    ensures TracksFrames(Evict([], all), frames)
  {
    hide Evict, Rising, FitsFrames;
    EvictDrops(all);
    if |all| > MAX_TRACKED {
      TailRises(all, |all| - MAX_TRACKED);
      forall e | e in all[|all| - MAX_TRACKED..] ensures FitsFrames(e, frames) {
        assert e in all;
      }
    }
  }

  lemma TailRises(tracked: seq<Tracked>, n: nat)
    requires Rising(tracked) && n <= |tracked|
    ensures Rising(tracked[n..])
  {
  }

  lemma {:induction false} NothingEvicted(tracked: seq<Tracked>)
    requires |tracked| <= MAX_TRACKED
    ensures Evict([], tracked) == tracked
  {
    assert [] + tracked == tracked;
  }

  /** An open batch is an older unclosed one to any newer batch. */
  lemma OpenIsOlder(s: State, id: nat)
    requires Inv(s) && AnOpenBatch(s.frames) && s.current.value < id
    ensures OlderOpen(s.tracked, id)
  {
    AllButLast(s.tracked, s.frames);
    assert s.tracked[|s.tracked| - 1] in s.tracked;
  }

  /** The open goes out only behind the close before it, under a newer id, stamped no earlier; and the cap holds. */
  lemma OpenKeeps(s: State, t: int, answer: Option<Window>)
    requires Inv(s)
    requires answer.Some? ==> (s.current.Some? ==>
      s.current.value <= answer.value.id) && answer.value.solveEnd >= answer.value.id - FINALIZE_DEADLINE
    ensures var r := AfterClose(s, t, answer);
      && Inv(r)
      && (forall u :: t <= u && Bounded(s, u) ==> Bounded(r, u))
      && (r.current == s.current || (answer.Some? && r.current == Some(answer.value.id)))
      && r.queued == s.queued && r.lastTime == s.lastTime
  {
    hide Paired, TracksFrames, AfterClose;
    if answer.Some? && !OlderOpen(s.tracked, answer.value.id) && s.current != Some(answer.value.id) {
      if AnOpenBatch(s.frames) {
        OpenIsOlder(s, answer.value.id);
      } else {
        OpensNext(s, t, answer.value);
      }
    } else {
      WithinCap(s);
      HeldBack(s, t, answer);
    }
  }

  lemma WithinCap(s: State)
    requires Inv(s)
    ensures |s.tracked| <= MAX_TRACKED
  {
  }

  lemma HeldBack(s: State, t: int, answer: Option<Window>)
    requires |s.tracked| <= MAX_TRACKED
    requires answer.None? || OlderOpen(s.tracked, answer.value.id) || s.current == Some(answer.value.id)
    ensures AfterClose(s, t, answer) == s
  {
    NothingEvicted(s.tracked);
    hide OlderOpen, Evict;
  }

  lemma OpensNext(s: State, t: int, w: Window)
    requires Inv(s) && !AnOpenBatch(s.frames) && !OlderOpen(s.tracked, w.id) && s.current != Some(w.id)
    requires (s.current.Some? ==> s.current.value <= w.id) && w.solveEnd >= w.id - FINALIZE_DEADLINE
    ensures var r := AfterClose(s, t, Some(w));
      && Inv(r) && (forall u :: t <= u && Bounded(s, u) ==> Bounded(r, u))
      && r.current == Some(w.id) && r.queued == s.queued && r.lastTime == s.lastTime
  {
    hide TracksFrames, Paired, Evict, SetTracked, OlderOpen;
    var e, f := Tracked(w.id, w.solveEnd, false), Opened(w.id, Later(s.closedAt, t));
    OpenTracks(s.tracked, s.frames, e, f);
    PairMore(s.frames, f);
  }

  // ----- every interleaving

  lemma LaunchKeeps(s: State, head: Head, seen: int, known: bool)
    requires Inv(s) && Bounded(s, head.time) && head.time <= seen && head.known == known && s.queued.None?
    ensures Inv(Launch(s, head)) && Timely(Launch(s, head), seen, known) && Launch(s, head).current == s.current
  {
    hide TickStart, Paired, TracksFrames;
    StartKeeps(s, head.time);
  }

  lemma StepKeeps(s: State, e: Event, seen: int, known: bool)
    requires Inv(s) && Timely(s, seen, known)
    requires e.Poll? ==> e.head.known == known && e.head.time == seen
    requires Names(e) && s.phase.Reading? ==>
      && (s.current.Some? ==> s.current.value <= e.current.value.id)
      && e.current.value.solveEnd >= e.current.value.id - FINALIZE_DEADLINE
    ensures Inv(Step(s, e)) && Timely(Step(s, e), seen, known)
  {
    hide Paired, TracksFrames, CloseDue, AfterClose, TickStart, Launch;
    match e {
      case Poll(head) =>
        if s.phase == Idle {
          LaunchKeeps(s.(queued := None), head, seen, known);
        } else if head.known && s.lastTime.Some? && head.time >= s.lastTime.value {
          CloseKeeps(s.(queued := Some(head)), head.time);
        }
      case Begin =>
        if s.phase.Starting? {
          StartKeeps(s, s.phase.head.time);
        }
      case Answer(answer) =>
        if s.phase.Reading? {
          OpenKeeps(s, s.phase.at, answer);
        }
      case Fail =>
      case Finish =>
        if s.phase == Ending && s.queued.Some? {
          LaunchKeeps(s.(queued := None), s.queued.value, seen, known);
        }
    }
  }

  ghost predicate SeenUpTo(events: seq<Event>, t: int)
  {
    forall k :: 0 <= k < |events| && events[k].Poll? ==> events[k].head.time <= t
  }

  lemma TimelyLater(s: State, t: int, u: int, known: bool)
    requires Timely(s, t, known) && t <= u
    ensures Timely(s, u, known)
  {
  }

  /** The current batch is the calendar's answer at some second no later than the last tick's. */
  ghost predicate Asked(cal: BatchId.Calendar, s: State)
  {
    && (s.phase.Reading? ==> s.lastTime == Some(s.phase.at))
    && (s.current.Some? ==>
      s.lastTime.Some? && exists t: nat :: t <= s.lastTime.value && AnswersAt(cal, t, s.current.value))
  }

  lemma LaunchAsks(cal: BatchId.Calendar, s: State, head: Head)
    requires Asked(cal, s) && Inv(s) && Bounded(s, head.time)
    ensures Asked(cal, Launch(s, head))
  {
    hide AnswersAt, Paired, TracksFrames, CloseDue;
    StartKeeps(s, head.time);
    StartAt(s, head.time);
  }

  lemma StartAt(s: State, t: int)
    ensures TickStart(s, t).lastTime == Some(t)
  {
    hide CloseScan;
  }

  lemma StepAsks(cal: BatchId.Calendar, s: State, e: Event, seen: int, known: bool)
    requires Asked(cal, s) && Inv(s) && Timely(s, seen, known)
    requires e.Poll? ==> e.head.known == known && e.head.time == seen
    requires Names(e) && s.phase.Reading? ==> Tells(cal, s.phase.at, e.current.value)
    ensures Asked(cal, Step(s, e))
  {
    hide AnswersAt, Paired, TracksFrames, CloseScan, TickStart, Launch, Evict, SetTracked, OlderOpen;
    match e {
      case Poll(head) =>
        if s.phase == Idle { LaunchAsks(cal, s.(queued := None), head); }
      case Begin =>
        if s.phase.Starting? {
          StartKeeps(s, s.phase.head.time);
          StartAt(s, s.phase.head.time);
        }
      case Answer(answer) =>
      case Fail =>
      case Finish =>
        if s.phase == Ending && s.queued.Some? { LaunchAsks(cal, s.(queued := None), s.queued.value); }
    }
  }

  lemma {:induction false} RunKeeps(cal: BatchId.Calendar, events: seq<Event>, known: bool, seen: int)
    requires HeadsRise(events, known) && SeenUpTo(events, seen) && Told(cal, events) && NeverGoesBack(cal)
    ensures Inv(Run(events)) && Timely(Run(events), seen, known) && Asked(cal, Run(events))
  {
    if events != [] {
      var init, e := events[..|events| - 1], events[|events| - 1];
      hide Step, Inv, AnswersAt;
      var at := if e.Poll? then e.head.time else seen;
      RunKeeps(cal, init, known, at);
      StepKeeps(Run(init), e, at, known);
      StepAsks(cal, Run(init), e, at, known);
      hide Run;
      TimelyLater(Step(Run(init), e), at, seen, known);
    }
  }

  /** The main result on the lifecycle, for a calendar whose answers never go back. Under every interleaving of polls
      and ticks, failed ticks included, with head times that never fall: the batch frames are opens and closes in turn,
      each batch closed exactly once and before the next one opens, ids rising and times never falling; a batch is
      forgotten only after its close; and at most eight are tracked. */
  lemma FramesPair(cal: BatchId.Calendar, events: seq<Event>, known: bool)
    requires HeadsRise(events, known) && Told(cal, events) && NeverGoesBack(cal)
    ensures Paired(Run(events).frames)
    ensures TracksFrames(Run(events).tracked, Run(events).frames)
    ensures Run(events).current == LastId(Run(events).frames)
  {
    HighestHolds(events);
    RunKeeps(cal, events, known, Highest(events));
  }

  function Highest(events: seq<Event>): int
  {
    if events == [] then 0
    else
      var e, rest := events[|events| - 1], Highest(events[..|events| - 1]);
      if e.Poll? && e.head.time > rest then e.head.time else rest
  }

  lemma {:induction false} HighestHolds(events: seq<Event>)
    ensures SeenUpTo(events, Highest(events))
  {
    if events != [] {
      HighestHolds(events[..|events| - 1]);
    }
  }

  // ----- which calendars those are

  /** Sessions that change only at transitions, and rounding that passes no valid id of a later session, are enough. */
  lemma SteadyNeverGoesBack(cal: BatchId.Calendar)
    requires BatchId.Steady(cal) && BatchId.NoneMissed(cal)
    ensures NeverGoesBack(cal)
  {
    forall t: nat, u: nat, i: nat, j: nat | t <= u && AnswersAt(cal, t, i) && AnswersAt(cal, u, j) ensures i <= j {
      BatchId.NextMonotone(cal, t, u, BatchId.DEFAULT_SOLUTION_WINDOW);
    }
  }

  /** The search answers some batch from every second. */
  ghost predicate AlwaysFinds(cal: BatchId.Calendar)
  {
    forall t: nat :: BatchId.NextValidBatchId(cal, t, BatchId.DEFAULT_SOLUTION_WINDOW).Found?
  }

  /** On the calendar alone: where the search always finds a batch, rounding that passes no valid id of a later session
      is necessary as well. */
  lemma NeverGoesBackExactly(cal: BatchId.Calendar)
    requires BatchId.Steady(cal) && AlwaysFinds(cal)
    ensures NeverGoesBack(cal) <==> BatchId.NoneMissed(cal)
  {
    hide BatchId.Aligned, BatchId.IsValidBatchId, BatchId.NextValidBatchId, BatchId.Steady;
    if BatchId.NoneMissed(cal) {
      SteadyNeverGoesBack(cal);
    } else {
      var c: nat, u: nat :| BatchId.DurationAt(cal, c) > 0 && cal.nextTransition(c) > c
        && cal.nextTransition(c) <= u < BatchId.Aligned(c, BatchId.DurationAt(cal, c))
        && BatchId.IsValidBatchId(cal, u);
      BatchId.MissedAnswers(cal, c, u, BatchId.DEFAULT_SOLUTION_WINDOW);
      var passed := BatchId.NextValidBatchId(cal, c - 1, BatchId.DEFAULT_SOLUTION_WINDOW);
      assert AnswersAt(cal, c - 1, passed.batch.batchId) && AnswersAt(cal, u - 1, u);
    }
  }

  /** A whole tick at second t, and what it is told. */
  function OneTick(t: nat, i: nat): seq<Event>
  {
    [Poll(Head(t, true)), Answer(Some(Window(i, i + BatchId.DEFAULT_SOLUTION_WINDOW))), Finish]
  }

  /** Two ticks, at seconds t and u, and what each is told. */
  function TwoTicks(t: nat, i: nat, u: nat, j: nat): seq<Event>
  {
    [Poll(Head(t, true)), Answer(Some(Window(i, i + BatchId.DEFAULT_SOLUTION_WINDOW))), Finish,
     Poll(Head(u, true)), Answer(Some(Window(j, j + BatchId.DEFAULT_SOLUTION_WINDOW)))]
  }

  /** Where an answer goes back, the second tick opens its batch behind the first one, still open. */
  lemma OpensBehindOpen(cal: BatchId.Calendar, t: nat, i: nat, u: nat, j: nat)
    requires t <= u && AnswersAt(cal, t, i) && AnswersAt(cal, u, j) && j < i
    ensures HeadsRise(TwoTicks(t, i, u, j), true) && Told(cal, TwoTicks(t, i, u, j))
    ensures Run(TwoTicks(t, i, u, j)).frames == [Opened(i, t), Opened(j, u)]
    ensures !Paired(Run(TwoTicks(t, i, u, j)).frames)
  {
    hide AnswersAt, Run, Step, Told, HeadsRise, Paired;
    TicksRise(t, i, u, j);
    AnswersLater(cal, u, j);
    OneTickRun(cal, t, i);
    SecondTick(t, i, u, j);
    var e, first := TwoTicks(t, i, u, j), OneTick(t, i);
    RunOf(cal, first, e[3]);
    RunOf(cal, first + [e[3]], e[4]);
    assert first + [e[3]] + [e[4]] == e;
    OpensUnpaired(Run(e).frames);
  }

  lemma OneTickRun(cal: BatchId.Calendar, t: nat, i: nat)
    requires AnswersAt(cal, t, i)
    ensures Run(OneTick(t, i)) == AfterFirst(t, i) && Told(cal, OneTick(t, i))
  {
    hide AnswersAt, Run, Step, Told;
    FirstTick(t, i);
    NothingRun(cal);
    var e := OneTick(t, i);
    RunOf(cal, [], e[0]);
    RunOf(cal, [e[0]], e[1]);
    RunOf(cal, [e[0], e[1]], e[2]);
    assert [] + [e[0]] == [e[0]] && [e[0]] + [e[1]] == [e[0], e[1]] && [e[0], e[1]] + [e[2]] == e;
  }

  lemma TicksRise(t: nat, i: nat, u: nat, j: nat)
    requires t <= u
    ensures HeadsRise(TwoTicks(t, i, u, j), true)
  {
  }

  lemma OpensUnpaired(frames: seq<Frame>)
    requires |frames| == 2 && frames[0].Opened? && frames[1].Opened?
    ensures !Paired(frames)
  {
    assert !Follows(frames[0], frames[1]);
  }

  lemma AnswersLater(cal: BatchId.Calendar, t: nat, id: nat)
    requires AnswersAt(cal, t, id)
    ensures t < id
  {
    hide BatchId.NextValidBatchId, BatchId.Steady, BatchId.EndsAligned, BatchId.NoneMissed, BatchId.IsValidBatchId;
    BatchId.NextIsValid(cal, t, BatchId.DEFAULT_SOLUTION_WINDOW);
  }

  lemma NothingRun(cal: BatchId.Calendar)
    ensures Run([]) == Start() && Told(cal, [])
  {
  }

  lemma RunOf(cal: BatchId.Calendar, events: seq<Event>, e: Event)
    ensures Run(events + [e]) == Step(Run(events), e)
    ensures Told(cal, events + [e]) <==>
      Told(cal, events) && (Names(e) && Run(events).phase.Reading? ==>
        Tells(cal, Run(events).phase.at, e.current.value))
  {
    hide Step, Tells;
    assert (events + [e])[..|events|] == events;
  }

  /** Between the two ticks: one batch open, nothing waiting. */
  function AfterFirst(t: nat, i: nat): State
  {
    State(Some(t), Some(i), [Tracked(i, i + BatchId.DEFAULT_SOLUTION_WINDOW, false)], None, [Opened(i, t)], None, Idle)
  }

  lemma FirstTick(t: nat, i: nat)
    ensures var e := OneTick(t, i);
      Step(Step(Step(Start(), e[0]), e[1]), e[2]) == AfterFirst(t, i)
      && Step(Start(), e[0]) == Start().(lastTime := Some(t), phase := Reading(t))
      && Step(Step(Start(), e[0]), e[1]).phase == Ending
  {
    var e, first := OneTick(t, i), Tracked(i, i + BatchId.DEFAULT_SOLUTION_WINDOW, false);
    assert Step(Start(), e[0]) == Start().(lastTime := Some(t), phase := Reading(t));
    assert [] + [first] == [first] && [] + [Opened(i, t)] == [Opened(i, t)];
    NothingEvicted([first]);
    hide Evict, CloseScan;
    assert !OlderOpen([], i);
    assert SetTracked([], first) == [first];
    assert Step(Step(Start(), e[0]), e[1]) == AfterFirst(t, i).(phase := Ending);
  }

  lemma SecondTick(t: nat, i: nat, u: nat, j: nat)
    requires t <= u < j < i
    ensures var e := TwoTicks(t, i, u, j);
      Step(AfterFirst(t, i), e[3]) == AfterFirst(t, i).(lastTime := Some(u), phase := Reading(u))
      && Step(Step(AfterFirst(t, i), e[3]), e[4]).frames == [Opened(i, t), Opened(j, u)]
  {
    var e, first := TwoTicks(t, i, u, j), Tracked(i, i + BatchId.DEFAULT_SOLUTION_WINDOW, false);
    OneEntry(first, u, [Opened(i, t)]);
    hide Evict, CloseScan, SetTracked;
    assert Step(AfterFirst(t, i), e[3]) == AfterFirst(t, i).(lastTime := Some(u), phase := Reading(u));
    assert !OlderOpen([first], j);
    assert [Opened(i, t)] + [Opened(j, u)] == [Opened(i, t), Opened(j, u)];
  }

  /** A pass before the batch's end leaves it as it is. */
  lemma OneEntry(e: Tracked, t: int, frames: seq<Frame>)
    requires t <= e.id <= e.solveEnd
    ensures CloseScan([e], Closing([], None, frames), t) == Closing([e], None, frames)
  {
    assert [e][..0] == [] && [] + [e] == [e];
  }

  /** Exactly: every run pairs its frames if and only if the calendar's answers never go back. */
  lemma FramesPairExactly(cal: BatchId.Calendar)
    ensures (forall events: seq<Event>, known: bool :: HeadsRise(events, known) && Told(cal, events) ==>
      Paired(Run(events).frames))
      <==> NeverGoesBack(cal)
  {
    hide HeadsRise, Told, Paired, Run, AnswersAt;
    if NeverGoesBack(cal) {
      forall events: seq<Event>, known: bool | HeadsRise(events, known) && Told(cal, events)
        ensures Paired(Run(events).frames) {
        FramesPair(cal, events, known);
      }
    } else {
      var t: nat, u: nat, i: nat, j: nat :| t <= u && AnswersAt(cal, t, i) && AnswersAt(cal, u, j) && i > j;
      OpensBehindOpen(cal, t, i, u, j);
    }
  }

  /** On the misaligned calendar 21 is opened at second 10 and 15 behind it at second 14. */
  lemma MisalignedOpensBehind()
    ensures AnswersAt(BatchId.Misaligned(), 10, 21) && AnswersAt(BatchId.Misaligned(), 14, 15)
    ensures Run(TwoTicks(10, 21, 14, 15)).frames == [Opened(21, 10), Opened(15, 14)]
  {
    BatchId.NotAlwaysLeast();
    BatchId.MisalignedGoesBack();
    hide Run, HeadsRise, Told, Paired, BatchId.Search;
    OpensBehindOpen(BatchId.Misaligned(), 10, 21, 14, 15);
  }

  /** What the pairing means for one batch: it is opened once, and before any later open it is closed, once. */
  lemma OpenedOnce(frames: seq<Frame>, j: nat, k: nat)
    requires Paired(frames) && j < k < |frames|
    ensures frames[j].id <= frames[k].id && frames[j].at <= frames[k].at
    ensures frames[j].Opened? == frames[k].Opened? ==> frames[j].id < frames[k].id
    ensures frames[j].Opened? && k > j + 1 ==> frames[j + 1] == CollectClosed(frames[j].id, frames[j + 1].at)
    decreases k
  {
    assert Follows(frames[k - 1], frames[k]);
    assert Follows(frames[j], frames[j + 1]);
    if k > j + 1 {
      OpenedOnce(frames, j, k - 1);
      assert Follows(frames[k - 2], frames[k - 1]);
      if k > j + 2 {
        OpenedOnce(frames, j, k - 2);
      }
    }
  }
}
