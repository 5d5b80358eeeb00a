// What each step of the shortprint engine does, in terms of the bytes accepted and emitted
// rather than of the page, and what that comes to over runs in which no write is cut short
// (ldd/shortprint/shortprint.c).
module ShortprintSteps {
  import opened Common
  import opened ShortprintRing
  import opened ShortprintEngine
  import opened ShortprintRuns

  // --- The writer ---

  lemma BeginStep(s: State, data: seq<byte>)
    requires Sane(s) && Enabled(s, BeginWrite(data))
    ensures var t := Next(s, BeginWrite(data));
            && t.calls == s.calls + [WriteCall(data, 0)] && t.accepted == s.accepted
            && (if data == [] then t.writer.NoWriter? else t.writer == LoadTail(First))
  {
  }

  // Evaluated while the tail stands still, the space is found if there is any, and all of
  // it is used that the call needs and the end of the page allows.
  lemma EvaluationStep(s: State)
    requires Inv(s) && Enabled(s, DoLoadTailAgain) && s.writer.e1 == |s.emitted|
    ensures var t, stored := Next(s, DoLoadTailAgain), |s.accepted| - |s.emitted|;
            var left := |Current(s).data| - Current(s).written;
            if stored == s.page - 1 then
              match s.writer.phase
              case First => t.writer == LoadTail(Test)
              case Test => t.writer == JoinQueue
              case Queued => t.writer.Asleep?
            else
              && t.writer.Copying? && t.writer.done == 0
              && t.writer.space == Min(left, Min(s.page - 1 - stored, s.page - |s.accepted| % s.page))
  {
    SpaceIsExact(s.page, |s.emitted|, |s.accepted|);
  }

  lemma CopyStep(s: State)
    requires Inv(s) && Enabled(s, CopyByte)
    ensures Next(s, CopyByte).writer == Copying(s.writer.space, s.writer.done + 1)
    ensures Next(s, CopyByte).accepted == s.accepted
  {
  }

  lemma AdvanceStep(s: State)
    requires Inv(s) && Enabled(s, AdvanceHead)
    ensures var t, call, n := Next(s, AdvanceHead), Current(s), s.writer.space;
            && 0 < n && call.written + n <= |call.data|
            && t.accepted == s.accepted + call.data[call.written..call.written + n]
            && t.calls == s.calls[|s.calls| - 1 := WriteCall(call.data, call.written + n)]
            && t.writer == LockedCheck
  {
  }

  lemma CheckStep(s: State)
    requires Inv(s) && Enabled(s, CheckActive)
    ensures var t := Next(s, CheckActive);
            && t.active && (s.active || (t.timer && t.queued))
            && (s.active ==> t.timer == s.timer && t.queued == s.queued)
            && (if Current(s).written == |Current(s).data| then t.writer.NoWriter? else t.writer == LoadTail(First))
  {
  }

  // --- The work function ---

  lemma DecideStep(s: State)
    requires Inv(s) && Enabled(s, Decide)
    ensures var t := Next(s, Decide);
            if s.emitted == s.accepted then
              && t.emitted == s.emitted && !t.active && !t.timer
              && t.closeAsleep == 0 && t.closing == s.closing + s.closeAsleep
            else
              && |s.emitted| < |s.accepted| && t.emitted == s.accepted[..|s.emitted| + 1]
              && t.timer && t.active == s.active && t.closeAsleep == s.closeAsleep
  {
    Lap(s.page, |s.emitted|, |s.accepted|);
    if s.emitted != s.accepted {
      var e := |s.emitted|;
      assert s.buf[e % |s.buf|] == s.accepted[e];
      assert s.accepted[..e + 1] == s.accepted[..e] + [s.accepted[e]];
    }
  }

  lemma WakeStep(s: State)
    requires Inv(s) && Enabled(s, WakeTest)
    ensures var stored := |s.accepted| - |s.emitted|;
            Next(s, WakeTest).woken <==> s.woken || 0 < stored < s.page - s.page / 2
  {
    FreeFigureIs(s.page, |s.emitted|, |s.accepted|);
  }

  // --- The handlers ---

  // With output inactive, neither an interrupt nor a timeout does anything.
  lemma InactiveHandlersDoNothing(s: State, l: Label)
    requires Sane(s) && Enabled(s, l) && !s.active && (l.IrqTest? || l.MissedTest? || l.TimeoutTest?)
    ensures var t := Next(s, l);
            && t == s.(handlers := t.handlers)
            && t.handlers.irqActive == s.handlers.irqActive && t.handlers.missedActive == s.handlers.missedActive
            && t.handlers.timeoutActive == s.handlers.timeoutActive
  {
  }

  // With output active, an interrupt queues the work, and a timeout arms the timer again or
  // goes on as an interrupt that was missed.
  lemma InterruptQueuesWork(s: State)
    requires Sane(s) && Enabled(s, IrqTest) && s.active
    ensures var t, h := Next(s, IrqTest), s.handlers.(irq := s.handlers.irq - 1);
            && Sane(t) && Enabled(t, IrqQueue)
            && Next(t, IrqQueue) == s.(queued := true, handlers := h)
  {
  }

  lemma MissedInterruptQueuesWork(s: State)
    requires Sane(s) && Enabled(s, MissedTest) && s.active
    ensures var t, h := Next(s, MissedTest), s.handlers.(missed := s.handlers.missed - 1);
            && Sane(t) && Enabled(t, MissedQueue)
            && Next(t, MissedQueue) == s.(queued := true, handlers := h)
  {
  }

  lemma TimeoutGoesOn(s: State)
    requires Sane(s) && Enabled(s, TimeoutTest) && s.active && !s.worker.BeforeWake?
    ensures var t, h := Next(s, TimeoutTest), s.handlers.(timeout := s.handlers.timeout - 1);
            && Sane(t) && Enabled(t, TimeoutRearm) && Enabled(t, TimeoutMissed)
            && Next(t, TimeoutRearm) == s.(timer := true, handlers := h)
            && Next(t, TimeoutMissed) == s.(handlers := h.(missed := h.missed + 1))
  {
  }

  // A release sleeps exactly on active output.
  lemma CloseStepSleeps(s: State)
    requires Sane(s) && Enabled(s, CloseTest)
    ensures var t := Next(s, CloseTest);
            && t.closing == s.closing - 1
            && t.closeAsleep == if s.active then s.closeAsleep + 1 else s.closeAsleep
  {
  }

  // --- Nothing stands still but who is asleep ---

  lemma WriterCanMove(s: State)
    requires Inv(s)
    ensures match s.writer
            case NoWriter => forall data :: Enabled(s, BeginWrite(data))
            case LoadTail(_) => Enabled(s, DoLoadTail)
            case LoadTailAgain(_, _, _) => Enabled(s, DoLoadTailAgain)
            case JoinQueue => Enabled(s, DoJoinQueue)
            case Copying(space, done) => if done < space then Enabled(s, CopyByte) else Enabled(s, AdvanceHead)
            case LockedCheck => s.worker.BeforeWake? || Enabled(s, CheckActive)
            case Asleep(_, _) => Enabled(s, Signal) && Enabled(s, Retest) && (s.woken ==> Enabled(s, Resume))
  {
  }

  lemma WorkerCanMove(s: State)
    ensures match s.worker
            case Idle => s.queued ==> Enabled(s, StartWork)
            case BeforeDecision => Enabled(s, Decide)
            case BeforeWake => Enabled(s, WakeTest)
            case ReadSide => Enabled(s, FinishWork)
    ensures Enabled(s, CloseBegin)
    ensures s.closing > 0 ==> Enabled(s, CloseTest)
    ensures s.closeAsleep > 0 ==> Enabled(s, CloseSignal)
  {
  }

  lemma HandlersCanMove(s: State)
    ensures Enabled(s, IrqArrives)
    ensures s.timer ==> Enabled(s, TimerFires)
    ensures s.handlers.timeout > 0 ==> Enabled(s, TimeoutTest)
    ensures s.handlers.timeoutActive > 0 && !s.worker.BeforeWake? ==>
              Enabled(s, TimeoutRearm) && Enabled(s, TimeoutMissed)
    ensures s.handlers.missed > 0 ==> Enabled(s, MissedTest)
    ensures s.handlers.missedActive > 0 ==> Enabled(s, MissedQueue)
    ensures s.handlers.irq > 0 ==> Enabled(s, IrqTest)
    ensures s.handlers.irqActive > 0 ==> Enabled(s, IrqQueue)
  {
  }

  // --- Writes that are not cut short ---

  // The data of the write calls begun in a run.
  function BegunIn(run: seq<Label>): seq<seq<byte>> {
    if run == [] then [] else (if run[0].BeginWrite? then [run[0].data] else []) + BegunIn(run[1..])
  }

  function Datas(calls: seq<WriteCall>): (ds: seq<seq<byte>>)
    ensures |ds| == |calls|
  {
    seq(|calls|, i requires 0 <= i < |calls| => calls[i].data)
  }

  function Flat(datas: seq<seq<byte>>): seq<byte> {
    if datas == [] then [] else Flat(datas[..|datas| - 1]) + datas[|datas| - 1]
  }

  // Only the start of a write and the advance of the head touch the calls.
  lemma WriterLeavesCalls(s: State, l: Label)
    requires Sane(s) && Enabled(s, l) && ByWriter(l) && !l.BeginWrite? && !l.AdvanceHead?
    ensures Next(s, l).calls == s.calls
  {
    assert Next(s, l) == WriterStep(s, l);
    if l.DoLoadTailAgain? || l.CheckActive? || l.CopyFault? { assert WriterStep(s, l).calls == s.calls; }
  }

  lemma OthersLeaveCalls(s: State, l: Label)
    requires Sane(s) && Enabled(s, l) && !ByWriter(l)
    ensures Next(s, l).calls == s.calls && Next(s, l).writer == s.writer
  {
    if !ByWorker(l) { HandlerFrame(s, l); }
  }

  lemma AdvanceLeavesDatas(s: State)
    requires Sane(s) && Enabled(s, AdvanceHead)
    ensures Datas(Next(s, AdvanceHead).calls) == Datas(s.calls)
  {
    var t := Next(s, AdvanceHead);
    forall i | 0 <= i < |s.calls| ensures t.calls[i].data == s.calls[i].data {}
  }

  lemma StepBegins(s: State, l: Label)
    requires Sane(s) && Enabled(s, l)
    ensures Datas(Next(s, l).calls) == Datas(s.calls) + if l.BeginWrite? then [l.data] else []
  {
    if !ByWriter(l) { OthersLeaveCalls(s, l); }
    else if l.AdvanceHead? { AdvanceLeavesDatas(s); }
    else if l.BeginWrite? { BeginStep(s, l.data); }
    else { WriterLeavesCalls(s, l); }
  }

  lemma {:induction false} CallsAreThoseBegun(s: State, run: seq<Label>, t: State)
    requires Reaches(s, run, t)
    ensures Datas(t.calls) == Datas(s.calls) + BegunIn(run)
    decreases |run|
  {
    if run != [] {
      StepBegins(s, run[0]);
      CallsAreThoseBegun(Next(s, run[0]), run[1..], t);
      ConcatAssociates(Datas(s.calls), if run[0].BeginWrite? then [run[0].data] else [], BegunIn(run[1..]));
    }
  }

  predicate CutShort(l: Label) {
    l.CopyFault? || l.Signal?
  }

  // All calls are complete but the one in progress, which has got through a chunk.
  ghost predicate Complete(s: State)
    requires Sane(s)
  {
    && (forall i :: 0 <= i < |s.calls| - 1 ==> s.calls[i].written == |s.calls[i].data|)
    && (s.writer.NoWriter? && s.calls != [] ==> Current(s).written == |Current(s).data|)
  }

  lemma WriterStaysIn(s: State, l: Label)
    requires Sane(s) && Enabled(s, l) && ByWriter(l) && !CutShort(l)
    requires !l.BeginWrite? && !l.AdvanceHead? && !l.CheckActive?
    ensures !Next(s, l).writer.NoWriter?
  {
  }

  lemma WriterKeepsComplete(s: State, l: Label)
    requires Inv(s) && Enabled(s, l) && ByWriter(l) && Complete(s) && !CutShort(l) && Sane(Next(s, l))
    ensures Complete(Next(s, l))
  {
    if l.AdvanceHead? { AdvanceStep(s); }
    else if l.BeginWrite? { BeginStep(s, l.data); }
    else if l.CheckActive? { CheckStep(s); WriterLeavesCalls(s, l); }
    else { WriterLeavesCalls(s, l); WriterStaysIn(s, l); }
  }

  lemma StepKeepsComplete(s: State, l: Label)
    requires Inv(s) && Enabled(s, l) && Complete(s) && !CutShort(l)
    ensures Inv(Next(s, l)) && Complete(Next(s, l))
  {
    StepKeepsInv(s, l);
    if ByWriter(l) { WriterKeepsComplete(s, l); } else { OthersLeaveCalls(s, l); }
  }

  lemma {:induction false} RunKeepsComplete(s: State, run: seq<Label>, t: State)
    requires Inv(s) && Complete(s) && Reaches(s, run, t) && forall l :: l in run ==> !CutShort(l)
    ensures Inv(t) && Complete(t)
    decreases |run|
  {
    if run != [] {
      assert run[0] in run;
      StepKeepsComplete(s, run[0]);
      RunKeepsComplete(Next(s, run[0]), run[1..], t);
    }
  }

  lemma {:induction false} StreamOfComplete(calls: seq<WriteCall>)
    requires forall i :: 0 <= i < |calls| ==> calls[i].written == |calls[i].data|
    ensures (forall c <- calls :: c.written <= |c.data|) && Stream(calls) == Flat(Datas(calls))
  {
    if calls != [] {
      var n := |calls| - 1;
      StreamOfComplete(calls[..n]);
      assert Datas(calls)[..n] == Datas(calls[..n]);
      assert calls[n].data[..calls[n].written] == calls[n].data;
    }
  }

  lemma StreamIsWhatWasBegun(s: State, run: seq<Label>, t: State)
    requires Init(s) && Reaches(s, run, t) && t.writer.NoWriter?
    requires forall l :: l in run ==> !CutShort(l)
    ensures Sane(t) && Stream(t.calls) == Flat(BegunIn(run))
  {
    RunKeepsComplete(s, run, t);
    StreamOfComplete(t.calls);
    CallsAreThoseBegun(s, run, t);
    assert Datas(s.calls) == [];
    assert Datas(t.calls) == BegunIn(run);
  }

  // When no write is cut short by a fault or a signal, everything written comes out: in
  // order, and all of it once output has stopped with no write in progress.
  lemma EverythingWrittenComesOut(s: State, run: seq<Label>, t: State)
    requires Init(s) && Reaches(s, run, t)
    requires forall l :: l in run ==> !l.CopyFault? && !l.Signal?
    requires t.writer.NoWriter?
    ensures t.emitted <= Flat(BegunIn(run))
    ensures |Flat(BegunIn(run))| - |t.emitted| < t.page
    ensures !t.active ==> t.emitted == Flat(BegunIn(run))
  {
    StreamIsWhatWasBegun(s, run, t);
    BytesComeOutInOrder(s, run, t);
    OutputIsNeverStranded(s, run, t);
  }
}
