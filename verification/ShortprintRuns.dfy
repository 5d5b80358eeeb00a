// What holds over every run of the shortprint engine (ldd/shortprint/shortprint.c).
module ShortprintRuns {
  import opened Common
  import opened ShortprintRing
  import opened ShortprintEngine

  ghost predicate Init(s: State) {
    && 2 < s.page == |s.buf| && s.head == s.tail == 0
    && !s.active && !s.queued && s.worker.Idle? && !s.timer && s.handlers == Handlers(0, 0, 0, 0, 0, 0)
    && s.writer.NoWriter? && s.closing == s.closeAsleep == 0
    && s.calls == [] && s.accepted == s.emitted == []
  }

  ghost predicate Reaches(s: State, run: seq<Label>, t: State)
    decreases |run|
  {
    && Sane(s)
    && if run == [] then s == t else Enabled(s, run[0]) && Reaches(Next(s, run[0]), run[1..], t)
  }

  lemma {:induction false} RunKeepsInv(s: State, run: seq<Label>, t: State)
    requires Inv(s) && Reaches(s, run, t)
    ensures Inv(t)
    decreases |run|
  {
    if run != [] {
      StepKeepsInv(s, run[0]);
      RunKeepsInv(Next(s, run[0]), run[1..], t);
    }
  }

  // The bytes strobed out are a prefix of the write calls' bytes, call after call, and
  // the ring never holds a full page.
  lemma BytesComeOutInOrder(s: State, run: seq<Label>, t: State)
    requires Init(s) && Reaches(s, run, t)
    ensures Sane(t) && t.emitted <= Stream(t.calls)
    ensures |Stream(t.calls)| - |t.emitted| < t.page
    ensures t.head == t.tail <==> t.emitted == Stream(t.calls)
  {
    RunKeepsInv(s, run, t);
    Lap(t.page, |t.emitted|, |t.accepted|);
  }

  // A space value found by a writer, however stale, never lets it touch an unsent byte:
  // what it is still going to store lies outside every slot in use.
  lemma CopyNeverHitsUnsentByte(s: State, run: seq<Label>, t: State, i: nat)
    requires Init(s) && Reaches(s, run, t)
    requires Sane(t) && t.writer.Copying? && |t.emitted| <= i < |Stream(t.calls)|
    ensures !(t.head <= i % t.page < t.head + t.writer.space)
    ensures t.buf[i % t.page] == Stream(t.calls)[i]
  {
    RunKeepsInv(s, run, t);
    FreeSlotsAreUnsent(t.page, |t.emitted|, |t.accepted|, t.writer.space, i);
  }

  ghost predicate Driven(s: State) {
    || s.queued || s.worker.BeforeDecision? || s.timer
    || s.handlers.timeout + s.handlers.timeoutActive + s.handlers.missed + s.handlers.missedActive > 0
  }

  // Output never stops with bytes left behind: idle and non-empty only while a writer is
  // about to look at the active flag, and active only while something will act.
  lemma OutputIsNeverStranded(s: State, run: seq<Label>, t: State)
    requires Init(s) && Reaches(s, run, t)
    ensures !t.active && t.head != t.tail ==> t.writer.LockedCheck?
    ensures t.active ==> Driven(t)
    ensures t.closeAsleep > 0 ==> t.active
  {
    RunKeepsInv(s, run, t);
  }

  // A release that finds the output idle, with no write in progress, has seen every
  // accepted byte go out.
  lemma ReleaseSeesEveryByteOut(s: State, run: seq<Label>, t: State)
    requires Init(s) && Reaches(s, run, t)
    requires Sane(t) && Enabled(t, CloseTest) && Next(t, CloseTest).closeAsleep == t.closeAsleep
    requires t.writer.NoWriter?
    ensures t.emitted == Stream(t.calls)
  {
    OutputIsNeverStranded(s, run, t);
    BytesComeOutInOrder(s, run, t);
  }

  // A writer asleep and not woken has between 1 and half a page of free space, or is
  // about to be woken, if and only if its last evaluation was not the lost one.
  lemma SleepingWriterHasLittleSpace(s: State, run: seq<Label>, t: State)
    requires Init(s) && Reaches(s, run, t) && t.writer.Asleep? && !t.woken
    ensures Sane(t)
    ensures var free := FreeFigure(t.page, t.head, t.tail);
            !LostEvaluation(t.page, t.head, t.writer.t1, t.writer.t2)
            <==> 1 <= free <= t.page / 2 || (t.worker.BeforeWake? && free > t.page / 2)
  {
    RunKeepsInv(s, run, t);
    FreeFigureIs(t.page, |t.emitted|, |t.accepted|);
  }

  lemma EmptyRingHasNoFigure(page: nat, p: nat)
    requires p < page
    ensures FreeFigure(page, p, p) == 0
  {
    DigitsUnique(page, 1, 0);
  }

  // With the evaluation of the space undisturbed by the consumer, that writer is always
  // waiting on a ring that is being emptied.
  lemma SleepingWriterIsServed(s: State, run: seq<Label>, t: State)
    requires Init(s) && Reaches(s, run, t) && t.writer.Asleep? && !t.woken
    requires t.writer.t1 == t.writer.t2
    ensures t.head != t.tail && t.active && Driven(t)
  {
    SleepingWriterHasLittleSpace(s, run, t);
    if t.head == t.tail { EmptyRingHasNoFigure(t.page, t.head); }
    OutputIsNeverStranded(s, run, t);
  }

  lemma LostWriterStays(s: State, l: Label)
    requires Sane(s) && Enabled(s, l) && !l.Signal? && !l.Retest?
    requires s.writer.Asleep? && !s.woken && s.head == s.tail
    ensures var t := Next(s, l);
            t.writer == s.writer && !t.woken && t.head == t.tail == s.tail && t.accepted == s.accepted
  {
    if l.WakeTest? { DigitsUnique(s.page, 1, 0); }
  }

  // A writer that has lost its evaluation sleeps on, whatever happens, until a signal.
  lemma {:induction false} LostWriterSleepsOn(s: State, run: seq<Label>, t: State)
    requires Reaches(s, run, t) && Signal !in run && Retest !in run
    requires s.writer.Asleep? && !s.woken && s.head == s.tail
    ensures t.writer == s.writer && !t.woken && t.head == t.tail == s.tail && t.accepted == s.accepted
    decreases |run|
  {
    if run != [] {
      assert run[0] in run;
      LostWriterStays(s, run[0]);
      LostWriterSleepsOn(Next(s, run[0]), run[1..], t);
    }
  }

  // --- The timer and the active flag ---

  ghost predicate Throughout(good: State -> bool, s: State, run: seq<Label>)
    decreases |run|
  {
    && Sane(s) && good(s)
    && (run == [] || (Enabled(s, run[0]) && Throughout(good, Next(s, run[0]), run[1..])))
  }

  // No step of the run is, where it is taken, one of the bad ones.
  ghost predicate Without(bad: (State, Label) -> bool, s: State, run: seq<Label>)
    decreases |run|
  {
    run == [] || (
      && Sane(s) && Enabled(s, run[0])
      && !bad(s, run[0]) && Without(bad, Next(s, run[0]), run[1..]))
  }

  lemma {:induction false} GoodUntilBad(good: State -> bool, bad: (State, Label) -> bool,
                                        s: State, run: seq<Label>, t: State)
    requires forall u, l :: Sane(u) && Enabled(u, l) && good(u) ==> (good(Next(u, l)) <==> !bad(u, l))
    requires Reaches(s, run, t) && good(s)
    ensures Throughout(good, s, run) <==> Without(bad, s, run)
    decreases |run|
  {
    if run != [] && !bad(s, run[0]) {
      GoodUntilBad(good, bad, Next(s, run[0]), run[1..], t);
    }
  }

  predicate TimerOnlyWhileActive(s: State) { s.timer ==> s.active }

  predicate ActiveOnlyWithTimer(s: State) { s.active ==> s.timer }

  // The two ways of arming the timer with output inactive: a timeout handler that tested
  // the flag before, and a work function left over that finds a byte not yet announced.
  predicate ArmsWhileInactive(s: State, l: Label) {
    !s.active && (l.TimeoutRearm? || (l.Decide? && s.head != s.tail))
  }

  predicate FiresWhileActive(s: State, l: Label) {
    s.active && l.TimerFires?
  }

  lemma TimerStep(s: State, l: Label)
    requires Sane(s) && Enabled(s, l) && TimerOnlyWhileActive(s)
    ensures TimerOnlyWhileActive(Next(s, l)) <==> !ArmsWhileInactive(s, l)
  {
  }

  lemma ActiveStep(s: State, l: Label)
    requires Sane(s) && Enabled(s, l) && ActiveOnlyWithTimer(s)
    ensures ActiveOnlyWithTimer(Next(s, l)) <==> !FiresWhileActive(s, l)
  {
  }

  // The timer is confined to active output in every state of a run if and only if no step
  // arms it with output inactive; output has its timer in every state of a run if and only
  // if the timer does not fire while output is active.
  lemma TimerFollowsOutput(s: State, run: seq<Label>, t: State)
    requires Init(s) && Reaches(s, run, t)
    ensures Throughout(TimerOnlyWhileActive, s, run) <==> Without(ArmsWhileInactive, s, run)
    ensures Throughout(ActiveOnlyWithTimer, s, run) <==> Without(FiresWhileActive, s, run)
  {
    forall u, l | Sane(u) && Enabled(u, l) && TimerOnlyWhileActive(u)
      ensures TimerOnlyWhileActive(Next(u, l)) <==> !ArmsWhileInactive(u, l)
    {
      TimerStep(u, l);
    }
    forall u, l | Sane(u) && Enabled(u, l) && ActiveOnlyWithTimer(u)
      ensures ActiveOnlyWithTimer(Next(u, l)) <==> !FiresWhileActive(u, l)
    {
      ActiveStep(u, l);
    }
    GoodUntilBad(TimerOnlyWhileActive, ArmsWhileInactive, s, run, t);
    GoodUntilBad(ActiveOnlyWithTimer, FiresWhileActive, s, run, t);
  }

  // The left-over work function arms it only in the few steps between a writer's advance
  // of the head and its start of the output.
  lemma LeftOverWorkMeetsWriter(s: State, run: seq<Label>, t: State)
    requires Init(s) && Reaches(s, run, t) && Sane(t) && Enabled(t, Decide) && ArmsWhileInactive(t, Decide)
    ensures t.writer.LockedCheck?
  {
    RunKeepsInv(s, run, t);
  }
}
