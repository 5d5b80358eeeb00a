// Runs of the shortprint engine that show what can go wrong, for any page and whatever
// the page holds at first (ldd/shortprint/shortprint.c).
module ShortprintWitnesses {
  import opened Common
  import opened ShortprintRing
  import opened ShortprintEngine
  import opened ShortprintRuns

  ghost predicate Reachable(s: State, t: State) {
    exists run :: Reaches(s, run, t)
  }

  lemma {:induction false} Append(s: State, run: seq<Label>, t: State, l: Label)
    requires Reaches(s, run, t) && Sane(t) && Enabled(t, l) && Sane(Next(t, l))
    ensures Reaches(s, run + [l], Next(t, l))
    decreases |run|
  {
    if run == [] {
      assert Reaches(Next(t, l), ([l])[1..], Next(t, l));
    } else {
      Append(Next(s, run[0]), run[1..], t, l);
      assert (run + [l])[1..] == run[1..] + [l];
    }
  }

  // A set of states that every enabled step stays inside.
  ghost predicate Closed(within: State -> bool) {
    forall t, l :: within(t) && Sane(t) && Enabled(t, l) && Sane(Next(t, l)) ==> within(Next(t, l))
  }

  lemma ReachableIsClosed(s: State)
    requires Sane(s)
    ensures Reachable(s, s) && Closed(t => Reachable(s, t))
  {
    assert Reaches(s, [], s);
    forall t, l | Reachable(s, t) && Sane(t) && Enabled(t, l) && Sane(Next(t, l)) ensures Reachable(s, Next(t, l)) {
      var run :| Reaches(s, run, t);
      Append(s, run, t, l);
    }
  }

  lemma Do(within: State -> bool, t: State, l: Label) returns (u: State)
    requires Closed(within) && within(t) && Sane(t) && Enabled(t, l) && Sane(Next(t, l))
    ensures u == Next(t, l) && within(u)
  {
    u := Next(t, l);
  }

  // --- Pieces of runs ---

  lemma InterruptSeen(within: State -> bool, t: State) returns (u: State)
    requires Closed(within) && within(t) && Sane(t) && t.active
    ensures within(u) && u == t.(handlers := t.handlers.(irqActive := t.handlers.irqActive + 1))
  {
    u := Do(within, t, IrqArrives);
    u := Do(within, u, IrqTest);
    assert u.handlers == t.handlers.(irqActive := t.handlers.irqActive + 1);
  }

  lemma Interrupt(within: State -> bool, t: State) returns (u: State)
    requires Closed(within) && within(t) && Sane(t) && t.active
    ensures within(u) && u == t.(queued := true)
  {
    u := InterruptSeen(within, t);
    u := Do(within, u, IrqQueue);
    assert u.handlers == t.handlers;
  }

  function Emitted(t: State): State
    requires Sane(t)
  {
    t.(timer := true, emitted := t.emitted + [t.buf[t.tail]], tail := Incr(t.page, t.tail, 1))
  }

  function Tested(t: State): State
    requires Sane(t)
  {
    t.(woken := t.woken || FreeFigure(t.page, t.head, t.tail) > t.page / 2)
  }

  lemma FinishRun(within: State -> bool, t: State) returns (u: State)
    requires Closed(within) && within(t) && Sane(t) && t.worker.BeforeWake?
    ensures within(u) && u == Tested(t).(worker := Idle)
  {
    u := Do(within, t, WakeTest);
    u := Do(within, u, FinishWork);
  }

  // One run of the work function on a non-empty ring.
  lemma Work(within: State -> bool, t: State) returns (u: State)
    requires Closed(within) && within(t) && Sane(t) && t.head != t.tail && t.queued && t.worker.Idle?
    ensures within(u) && Sane(Emitted(t)) && u == Tested(Emitted(t)).(queued := false)
  {
    var v := Do(within, t, StartWork);
    v := Do(within, v, Decide);
    assert v == Emitted(t).(queued := false, worker := BeforeWake);
    u := FinishRun(within, v);
  }

  // The device interrupts, and the work function strobes out one byte.
  lemma EmitOne(within: State -> bool, t: State) returns (u: State)
    requires Closed(within) && within(t) && Sane(t) && t.head != t.tail && t.active && t.worker.Idle?
    ensures within(u) && Sane(Emitted(t)) && u == Tested(Emitted(t)).(queued := false)
  {
    u := Interrupt(within, t);
    u := Work(within, u);
  }

  // The work function on an empty ring.
  lemma Stop(within: State -> bool, t: State) returns (u: State)
    requires Closed(within) && within(t) && Sane(t) && t.head == t.tail && t.queued && t.worker.Idle?
    ensures within(u) && Sane(u) && u.head == u.tail == t.tail && u.page == t.page
    ensures !u.active && !u.timer && u.worker.Idle? && u.handlers == t.handlers && u.writer == t.writer
  {
    var v := Do(within, t, StartWork);
    v := Do(within, v, Decide);
    u := FinishRun(within, v);
  }

  lemma {:induction false} CopyAll(within: State -> bool, t: State) returns (u: State)
    requires Closed(within) && within(t) && Sane(t) && t.writer.Copying?
    ensures within(u) && Sane(u)
    ensures u == t.(buf := u.buf, writer := Copying(t.writer.space, t.writer.space))
    decreases if t.writer.Copying? then t.writer.space - t.writer.done else 0
  {
    u := t;
    if t.writer.done < t.writer.space {
      u := Do(within, t, CopyByte);
      u := CopyAll(within, u);
    }
  }

  // How much the writer of t can store, the tail being at rest.
  function Fits(t: State): int
    requires t.calls != []
  {
    Min(if SpaceAt(t.page, t.head, t.tail, t.tail) < 0 then 0 else SpaceAt(t.page, t.head, t.tail, t.tail),
        if |Current(t).data| < Current(t).written then 0 else |Current(t).data| - Current(t).written)
  }

  lemma Evaluate(within: State -> bool, t: State) returns (u: State)
    requires Closed(within) && within(t) && Sane(t) && t.writer == LoadTail(First) && Fits(t) > 0
    ensures within(u) && Sane(u) && u == t.(writer := Copying(Fits(t), 0))
  {
    u := Do(within, t, DoLoadTail);
    u := Do(within, u, DoLoadTailAgain);
  }

  lemma Announce(within: State -> bool, t: State) returns (u: State)
    requires Closed(within) && within(t) && Sane(t) && t.worker.Idle?
    requires t.writer.Copying? && t.writer.done == t.writer.space
    ensures within(u) && Sane(u) && u.active && u.calls == WithCurrent(t, Current(t).written + t.writer.space)
    ensures u == t.(head := Incr(t.page, t.head, t.writer.space), calls := u.calls, accepted := u.accepted,
                    writer := LoopTop(Current(u)), active := true, timer := u.timer, queued := u.queued)
    ensures !t.active ==> u.timer && u.queued
  {
    u := Do(within, t, AdvanceHead);
    u := Do(within, u, CheckActive);
  }

  // One turn of the write loop, undisturbed.
  lemma StoreChunk(within: State -> bool, t: State) returns (u: State)
    requires Closed(within) && within(t) && Sane(t) && t.worker.Idle? && t.writer == LoadTail(First) && Fits(t) > 0
    ensures within(u) && Sane(u) && u.active && u.calls == WithCurrent(t, Current(t).written + Fits(t))
    ensures u == t.(buf := u.buf, head := Incr(t.page, t.head, Fits(t)), calls := u.calls, accepted := u.accepted,
                    writer := LoopTop(Current(u)), active := true, timer := u.timer, queued := u.queued)
    ensures !t.active ==> u.timer && u.queued
  {
    u := Evaluate(within, t);
    u := CopyAll(within, u);
    u := Announce(within, u);
  }

  // --- The lost evaluation happens ---

  // In the middle of a write of a page and a byte, `written` of it stored.
  ghost predicate Filling(t: State, head: int, tail: int, written: int) {
    && Sane(t) && t.head == head && t.tail == tail && t.active && t.worker.Idle?
    && t.calls != [] && |Current(t).data| == t.page + 1 && Current(t).written == written
  }

  lemma FirstChunk(within: State -> bool, s: State, data: seq<byte>) returns (u: State)
    requires Closed(within) && within(s) && Init(s) && |data| == s.page + 1
    ensures within(u) && Filling(u, u.page - 1, 0, u.page - 1) && u.writer == LoadTail(First)
  {
    u := Do(within, s, BeginWrite(data));
    assert Current(u) == WriteCall(data, 0);
    u := StoreChunk(within, u);
  }

  lemma FullPage(within: State -> bool, s: State, data: seq<byte>) returns (u: State)
    requires Closed(within) && within(s) && Init(s) && |data| == s.page + 1
    ensures within(u) && Filling(u, 0, 1, u.page) && u.writer == LoadTail(First)
  {
    u := FirstChunk(within, s, data);
    u := EmitOne(within, u);
    u := StoreChunk(within, u);
  }

  lemma GiveUp(within: State -> bool, t: State) returns (u: State)
    requires Closed(within) && within(t) && Filling(t, 0, 1, t.page) && t.writer == LoadTail(First)
    ensures within(u) && Filling(u, 0, 1, u.page) && u.writer == JoinQueue
  {
    u := Do(within, t, DoLoadTail);
    u := Do(within, u, DoLoadTailAgain);
    u := Do(within, u, DoLoadTail);
    u := Do(within, u, DoLoadTailAgain);
  }

  // The work function empties the page down to its last byte.
  lemma {:induction false} Drain(within: State -> bool, t: State) returns (u: State)
    requires Closed(within) && within(t) && 0 < t.tail && Filling(t, 0, t.tail, t.page) && t.writer == JoinQueue
    ensures within(u) && Filling(u, 0, u.page - 1, u.page) && u.writer == JoinQueue
    decreases t.page - t.tail
  {
    u := t;
    if t.tail < t.page - 1 {
      u := EmitOne(within, t);
      u := Drain(within, u);
    }
  }

  // Two loads of the tail around the last emission.
  lemma LastEmissionIsMissed(within: State -> bool, t: State) returns (u: State)
    requires Closed(within) && within(t) && Filling(t, 0, t.page - 1, t.page) && t.writer == JoinQueue
    ensures within(u) && u.writer.Asleep? && !u.woken && u.head == u.tail && u.worker.Idle?
  {
    u := Do(within, t, DoJoinQueue);
    u := Do(within, u, DoLoadTail);
    DigitsUnique(u.page, 1, 0);
    u := EmitOne(within, u);
    u := Do(within, u, DoLoadTailAgain);
  }

  lemma LoseEvaluation(within: State -> bool, s: State, data: seq<byte>) returns (t: State)
    requires Closed(within) && within(s) && Init(s) && |data| == s.page + 1
    ensures within(t) && t.writer.Asleep? && !t.woken && t.head == t.tail && t.worker.Idle?
  {
    t := FullPage(within, s, data);
    t := GiveUp(within, t);
    t := Drain(within, t);
    t := LastEmissionIsMissed(within, t);
  }

  // From any initial state and with any bytes to write, the writer can go to sleep on an
  // empty ring, with no wake-up to come.
  lemma EvaluationCanBeLost(s: State, data: seq<byte>)
    requires Init(s) && |data| == s.page + 1
    ensures exists t :: Reachable(s, t) && t.writer.Asleep? && !t.woken && t.head == t.tail && t.worker.Idle?
  {
    ReachableIsClosed(s);
    var within := t => Reachable(s, t);
    var t := LoseEvaluation(within, s, data);
  }

  // --- The timer is not tied to the active flag ---

  lemma OneByteStored(within: State -> bool, s: State, x: byte) returns (u: State)
    requires Closed(within) && within(s) && Init(s)
    ensures within(u) && Sane(u) && u.handlers == Handlers(0, 0, 0, 0, 0, 0) && u.page == s.page
    ensures u.active && u.queued && u.timer && u.head == 1 && u.tail == 0 && u.worker.Idle? && u.writer.NoWriter?
  {
    u := Do(within, s, BeginWrite([x]));
    assert Current(u) == WriteCall([x], 0);
    u := StoreChunk(within, u);
  }

  lemma FireTimer(within: State -> bool, t: State) returns (u: State)
    requires Closed(within) && within(t) && Sane(t) && t.handlers == Handlers(0, 0, 0, 0, 0, 0) && t.active && t.timer
    ensures within(u) && Sane(u) && u == t.(timer := false, handlers := Handlers(0, 1, 0, 0, 0, 0))
  {
    u := Do(within, t, TimerFires);
    u := Do(within, u, TimeoutTest);
  }

  lemma OneByteSent(within: State -> bool, t: State) returns (u: State)
    requires Closed(within) && within(t) && Sane(t) && t.head == 1 && t.tail == 0
    requires t.active && t.queued && t.worker.Idle? && t.writer.NoWriter?
    ensures within(u) && Sane(u) && u.handlers == t.handlers && u.page == t.page
    ensures u.active && u.head == u.tail == 1 && u.worker.Idle? && u.writer.NoWriter?
  {
    u := Work(within, t);
  }

  lemma ArmTooLate(within: State -> bool, s: State, x: byte) returns (t: State)
    requires Closed(within) && within(s) && Init(s)
    ensures within(t) && t.timer && !t.active && t.head == t.tail
  {
    t := OneByteStored(within, s, x);
    t := FireTimer(within, t);
    t := OneByteSent(within, t);
    t := Interrupt(within, t);
    t := Stop(within, t);
    t := Do(within, t, TimeoutRearm);
  }

  // A timeout handler that tested the flag before output stopped still arms the timer
  // after it: the next start of output then finds the timer already pending.
  lemma TimerCanOutliveOutput(s: State, x: byte)
    requires Init(s)
    ensures exists t :: Reachable(s, t) && t.timer && !t.active && t.head == t.tail
  {
    ReachableIsClosed(s);
    var within := t => Reachable(s, t);
    var t := ArmTooLate(within, s, x);
  }

  // An interrupt tested before output stopped leaves work queued after it.
  lemma LeaveWork(within: State -> bool, s: State, x: byte) returns (u: State)
    requires Closed(within) && within(s) && Init(s)
    ensures within(u) && Sane(u) && !u.active && !u.timer && u.queued && u.worker.Idle? && u.writer.NoWriter?
    ensures u.head == u.tail == 1
  {
    u := OneByteStored(within, s, x);
    u := OneByteSent(within, u);
    u := Interrupt(within, u);
    u := InterruptSeen(within, u);
    u := Stop(within, u);
    u := Do(within, u, IrqQueue);
  }

  lemma ArmTooEarly(within: State -> bool, s: State, x: byte) returns (t: State)
    requires Closed(within) && within(s) && Init(s)
    ensures within(t) && t.timer && !t.active && t.writer.LockedCheck?
  {
    t := LeaveWork(within, s, x);
    t := Do(within, t, BeginWrite([x]));
    assert Current(t) == WriteCall([x], 0);
    t := Evaluate(within, t);
    t := CopyAll(within, t);
    t := Do(within, t, AdvanceHead);
    t := Do(within, t, StartWork);
    t := Do(within, t, Decide);
  }

  // A left-over work function sends a byte, and arms the timer, before its writer has
  // started the output: that start then finds the timer already pending.
  lemma TimerCanPrecedeOutput(s: State, x: byte)
    requires Init(s)
    ensures exists t :: Reachable(s, t) && t.timer && !t.active && t.writer.LockedCheck?
  {
    ReachableIsClosed(s);
    var within := t => Reachable(s, t);
    var t := ArmTooEarly(within, s, x);
  }

  lemma MissInterrupt(within: State -> bool, s: State, x: byte) returns (t: State)
    requires Closed(within) && within(s) && Init(s)
    ensures within(t) && t.active && !t.timer && t.handlers == Handlers(0, 0, 0, 0, 0, 0)
  {
    t := OneByteStored(within, s, x);
    t := FireTimer(within, t);
    t := Do(within, t, TimeoutMissed);
    t := Do(within, t, MissedTest);
    t := Do(within, t, MissedQueue);
  }

  // A timeout taken for a missed interrupt does not arm the timer again: output goes on
  // without it until the work function runs.
  lemma OutputCanLackTimer(s: State, x: byte)
    requires Init(s)
    ensures exists t :: Reachable(s, t) && t.active && !t.timer && t.handlers == Handlers(0, 0, 0, 0, 0, 0)
  {
    ReachableIsClosed(s);
    var within := t => Reachable(s, t);
    var t := MissInterrupt(within, s, x);
  }
}
