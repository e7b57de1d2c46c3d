/** The frames each event publishes, and what the coordinator has caught up with (api/src/lifecycle.ts). */
module LifecycleFrames {
  import opened Common
  import opened Lifecycle
  import BatchId

  // ----- what a run keeps besides

  /** A close that is the last frame is the one closedAt remembers. */
  predicate StampKept(s: State)
  {
    if s.frames == [] then s.closedAt.None?
    else s.frames[|s.frames| - 1].CollectClosed? ==> s.closedAt == Some(s.frames[|s.frames| - 1].at)
  }

  lemma CloseStamps(s: State, t: int)
    requires Inv(s) && Bounded(s, t) && StampKept(s)
    ensures StampKept(CloseDue(s, t))
  {
    hide CloseDue, Paired, TracksFrames;
    CloseDueIs(s, t);
  }

  lemma StartIsClose(s: State, t: int)
    requires Bounded(s, t)
    ensures TickStart(s, t) == CloseDue(s.(lastTime := Some(t)), t)
  {
    hide CloseDue;
  }

  lemma StepStamps(s: State, e: Event, seen: int, known: bool)
    requires Inv(s) && Timely(s, seen, known) && StampKept(s)
    requires e.Poll? ==> e.head.known == known && e.head.time == seen
    requires Names(e) && s.phase.Reading? ==>
      && (s.current.Some? ==> s.current.value <= e.current.value.id)
      && e.current.value.solveEnd >= e.current.value.id - FINALIZE_DEADLINE
    ensures StampKept(Step(s, e))
  {
    hide CloseDue, Paired, TracksFrames, TickStart, Evict, SetTracked, OlderOpen;
    match e {
      case Poll(head) =>
        if s.phase == Idle {
          LaunchStamps(s.(queued := None), head);
        } else {
          CloseStamps(s.(queued := Some(head)), head.time);
        }
      case Begin =>
        if s.phase.Starting? { LaunchStamps(s, s.phase.head.(known := true)); }
      case Answer(answer) =>
      case Fail =>
      case Finish =>
        if s.phase == Ending && s.queued.Some? { LaunchStamps(s.(queued := None), s.queued.value); }
    }
  }

  lemma LaunchStamps(s: State, head: Head)
    requires Inv(s) && Bounded(s, head.time) && StampKept(s)
    ensures StampKept(Launch(s, head)) && StampKept(TickStart(s, head.time))
  {
    hide CloseDue, Paired, TracksFrames, TickStart;
    StartIsClose(s, head.time);
    CloseStamps(s.(lastTime := Some(head.time)), head.time);
  }

  lemma {:induction false} RunStamps(cal: BatchId.Calendar, events: seq<Event>, known: bool)
    requires HeadsRise(events, known) && Told(cal, events) && NeverGoesBack(cal)
    ensures StampKept(Run(events))
  {
    if events != [] {
      var init, e := events[..|events| - 1], events[|events| - 1];
      hide Step, Inv, AnswersAt, StampKept;
      RunStamps(cal, init, known);
      HighestHolds(init);
      var seen := if e.Poll? then e.head.time else Highest(init);
      RunKeeps(cal, init, known, seen);
      AnswerAhead(cal, Run(init), e);
      StepStamps(Run(init), e, seen, known);
    }
  }

  /** An answer is no earlier than the current batch. */
  lemma AnswerAhead(cal: BatchId.Calendar, s: State, e: Event)
    requires Asked(cal, s) && NeverGoesBack(cal)
    requires Names(e) && s.phase.Reading? ==> Tells(cal, s.phase.at, e.current.value)
    ensures Names(e) && s.phase.Reading? ==>
      && (s.current.Some? ==> s.current.value <= e.current.value.id)
      && e.current.value.solveEnd >= e.current.value.id - FINALIZE_DEADLINE
  {
    hide AnswersAt;
  }

  // ----- the frames of one event

  /** The close the open batch is due at a second, or nothing. */
  function ClosesAt(frames: seq<Frame>, t: int): seq<Frame>
  {
    if frames != [] && frames[|frames| - 1].Opened? && t > frames[|frames| - 1].id
    then [CollectClosed(frames[|frames| - 1].id, t)] else []
  }

  /** The open of a batch named at a second: none while one is open or if it is the last one; never stamped before the
      frame it follows. */
  function OpensAt(frames: seq<Frame>, at: int, id: nat): seq<Frame>
  {
    if frames == [] then [Opened(id, at)]
    else
      var last := frames[|frames| - 1];
      if last.Opened? || last.id == id then [] else [Opened(id, Max(at, last.at))]
  }

  lemma CloseFrames(s: State, t: int)
    requires Inv(s)
    ensures CloseDue(s, t).frames == s.frames + ClosesAt(s.frames, t)
  {
    hide CloseDue, Paired, TracksFrames;
    CloseDueIs(s, t);
  }

  lemma StartFrames(s: State, t: int)
    requires Inv(s) && Bounded(s, t)
    ensures TickStart(s, t).frames == s.frames + ClosesAt(s.frames, t)
  {
    hide CloseDue, Paired, TracksFrames, TickStart;
    StartIsClose(s, t);
    CloseFrames(s.(lastTime := Some(t)), t);
  }

  lemma OpenFrames(s: State, at: int, w: Window)
    requires Inv(s) && StampKept(s) && (s.current.Some? ==> s.current.value <= w.id)
    ensures AfterClose(s, at, Some(w)).frames == s.frames + OpensAt(s.frames, at, w.id)
  {
    hide Paired, Evict, SetTracked;
    if s.frames != [] && s.frames[|s.frames| - 1].Opened? {
      if s.current.value < w.id { OpenIsOlder(s, w.id); }
    } else {
      AllClosed(s.tracked, s.frames);
    }
  }

  /** What is known of the coordinator after a run. */
  lemma RunState(cal: BatchId.Calendar, events: seq<Event>, known: bool, seen: int)
    requires HeadsRise(events, known) && Told(cal, events) && NeverGoesBack(cal) && SeenUpTo(events, seen)
    ensures Inv(Run(events)) && Timely(Run(events), seen, known) && StampKept(Run(events)) && Asked(cal, Run(events))
  {
    hide Run, Inv, Timely, StampKept, AnswersAt;
    RunKeeps(cal, events, known, seen);
    RunStamps(cal, events, known);
  }

  /** A poll that reads the head's time closes what is due at it, at once, whatever the running tick is waiting for. */
  lemma PollCloses(cal: BatchId.Calendar, events: seq<Event>, head: Head)
    requires HeadsRise(events + [Poll(head)], true) && Told(cal, events) && NeverGoesBack(cal)
    ensures Run(events + [Poll(head)]).frames == Run(events).frames + ClosesAt(Run(events).frames, head.time)
  {
    hide CloseDue, TickStart, Inv, Told, NeverGoesBack, AnswersAt, Asked, ClosesAt;
    var all, s := events + [Poll(head)], Run(events);
    assert all[..|all| - 1] == events && all[|events|] == Poll(head);
    PolledBefore(events, head, true);
    RunState(cal, events, true, head.time);
    TickTimed(events);
    if s.phase == Idle {
      SameInv(s, s.(queued := None));
      StartFrames(s.(queued := None), head.time);
    } else {
      SameInv(s, s.(queued := Some(head)));
      CloseFrames(s.(queued := Some(head)), head.time);
    }
  }

  lemma SameInv(s: State, r: State)
    requires Inv(s) && r == s.(queued := r.queued)
    ensures Inv(r)
  {
  }

  lemma PolledBefore(events: seq<Event>, head: Head, known: bool)
    requires HeadsRise(events + [Poll(head)], known)
    ensures HeadsRise(events, known) && SeenUpTo(events, head.time) && head.known == known
  {
    var all := events + [Poll(head)];
    assert all[|events|] == Poll(head);
    assert forall k :: 0 <= k < |events| ==> all[k] == events[k];
  }

  /** Where heads come with their times, a tick that has begun has read its own. */
  lemma {:induction false} TickTimed(events: seq<Event>)
    requires forall k :: 0 <= k < |events| && events[k].Poll? ==> events[k].head.known
    ensures var s := Run(events);
      (s.queued.Some? ==> s.queued.value.known) && !s.phase.Starting? && (s.phase != Idle ==> s.lastTime.Some?)
  {
    hide CloseScan, Evict, SetTracked, OlderOpen;
    if events != [] {
      var init, e := events[..|events| - 1], events[|events| - 1];
      TickTimed(init);
      if e.Poll? { StartAt(Run(init).(queued := None), e.head.time); }
      if Run(init).queued.Some? { StartAt(Run(init).(queued := None), Run(init).queued.value.time); }
    }
  }

  /** On a fork a head's time comes with its block: a tick that gets it closes what is due at it. */
  lemma BeginCloses(cal: BatchId.Calendar, events: seq<Event>, known: bool)
    requires HeadsRise(events, known) && Told(cal, events) && NeverGoesBack(cal)
    ensures var s, r := Run(events), Run(events + [Begin]);
      r.frames == s.frames + if s.phase.Starting? then ClosesAt(s.frames, s.phase.head.time) else []
  {
    hide CloseDue, TickStart, Inv, Told, NeverGoesBack, AnswersAt, Asked, ClosesAt;
    assert (events + [Begin])[..|events|] == events;
    HighestHolds(events);
    RunState(cal, events, known, Highest(events));
    if Run(events).phase.Starting? {
      StartFrames(Run(events), Run(events).phase.head.time);
    }
  }

  /** An answer opens the batch it names, once none is open, and only if it is a new one. */
  lemma AnswerOpens(cal: BatchId.Calendar, events: seq<Event>, known: bool, answer: Option<Window>)
    requires HeadsRise(events, known) && Told(cal, events + [Answer(answer)]) && NeverGoesBack(cal)
    ensures var s, r := Run(events), Run(events + [Answer(answer)]);
      r.frames == s.frames +
        if s.phase.Reading? && answer.Some? then OpensAt(s.frames, s.phase.at, answer.value.id) else []
  {
    hide Inv, NeverGoesBack, AnswersAt, OpensAt, Evict, SetTracked, OlderOpen;
    var all, s := events + [Answer(answer)], Run(events);
    assert all[..|all| - 1] == events && all[|events|] == Answer(answer);
    HighestHolds(events);
    RunState(cal, events, known, Highest(events));
    if s.phase.Reading? && answer.Some? {
      AnswerAhead(cal, s, Answer(answer));
      OpenFrames(s, s.phase.at, answer.value);
    }
  }

  /** The end of a tick starts the one waiting, which closes what is due at its head's time if that is known. A failure
      publishes nothing. */
  lemma EndCloses(cal: BatchId.Calendar, events: seq<Event>, known: bool)
    requires HeadsRise(events, known) && Told(cal, events) && NeverGoesBack(cal)
    ensures Run(events + [Fail]).frames == Run(events).frames
    ensures var s, r := Run(events), Run(events + [Finish]);
      r.frames == s.frames +
        if s.phase == Ending && s.queued.Some? && known then ClosesAt(s.frames, s.queued.value.time) else []
  {
    hide CloseDue, TickStart, Inv, Told, NeverGoesBack, AnswersAt, Asked, ClosesAt;
    assert (events + [Fail])[..|events|] == events && (events + [Finish])[..|events|] == events;
    HighestHolds(events);
    RunState(cal, events, known, Highest(events));
    var s := Run(events);
    if s.phase == Ending && s.queued.Some? {
      SameInv(s, s.(queued := None));
      StartFrames(s.(queued := None), s.queued.value.time);
    }
  }

  // ----- the newest head

  /** The last head polled, if any. */
  function LastHead(events: seq<Event>): Option<Head>
  {
    if events == [] then None
    else if events[|events| - 1].Poll? then Some(events[|events| - 1].head)
    else LastHead(events[..|events| - 1])
  }

  /** No poll is lost. The last head polled is the one waiting, or the one the running or the last tick is for; so a
      coordinator at rest has caught up with it. */
  lemma {:induction false} CaughtUp(events: seq<Event>)
    requires forall k :: 0 <= k < |events| && events[k].Poll? ==> events[k].head.known
    ensures var s, last := Run(events), LastHead(events);
      && (last.None? ==> s == Start())
      && (last.Some? ==> s.queued == last || (s.queued.None? && s.lastTime == Some(last.value.time)))
      && (s.phase == Idle ==> s.queued.None?)
  {
    hide CloseScan, Evict, SetTracked, OlderOpen;
    if events != [] {
      var init, e := events[..|events| - 1], events[|events| - 1];
      CaughtUp(init);
      TickTimed(init);
      if e.Poll? { StartAt(Run(init).(queued := None), e.head.time); }
      if Run(init).queued.Some? { StartAt(Run(init).(queued := None), Run(init).queued.value.time); }
    }
  }
}
