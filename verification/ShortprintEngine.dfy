// The shortprint output engine as a state machine: the writer holding the semaphore,
// the work function, the interrupt, the missed-interrupt timer, and closing processes
// (ldd/shortprint/shortprint.c). The writer's two loads of the tail are separate steps,
// and so are the decision of the work function and its wake-up test, which both lie in
// one locked section.
module ShortprintEngine {
  import opened Common
  import opened ShortprintRing

  // The three places where shortp_write evaluates shortp_out_space.
  datatype Phase =
    | First    // before waiting
    | Test     // wait_event's test before joining the queue
    | Queued   // wait_event's test on the queue

  datatype WriterPc =
    | NoWriter
    | LoadTail(phase: Phase)
    | LoadTailAgain(phase: Phase, t1: nat, e1: nat)  // t1 loaded when e1 bytes had been emitted
    | JoinQueue
    | Asleep(t1: nat, t2: nat)
    | Copying(space: nat, done: nat)
    | LockedCheck                                    // head advanced, lock not taken yet

  datatype WorkerPc = Idle | BeforeDecision | BeforeWake | ReadSide

  // Handlers in flight: shortp_timeout on entry, past its first test, and inside
  // shortp_interrupt before and after the test there; shortp_interrupt likewise.
  datatype Handlers = Handlers(timeout: nat, timeoutActive: nat, missed: nat, missedActive: nat,
                               irq: nat, irqActive: nat)

  // One write call: its bytes and how many of them have entered the ring.
  datatype WriteCall = WriteCall(data: seq<byte>, written: nat)

  datatype State = State(
    page: nat, buf: seq<byte>, head: nat, tail: nat,
    active: bool, queued: bool, worker: WorkerPc, timer: bool, handlers: Handlers,
    writer: WriterPc, woken: bool,
    closing: nat, closeAsleep: nat,       // releases about to test, and asleep on, shortp_empty_queue
    calls: seq<WriteCall>, accepted: seq<byte>, emitted: seq<byte>)

  datatype Label =
    | BeginWrite(data: seq<byte>) | DoLoadTail | DoLoadTailAgain | DoJoinQueue
    | CopyByte | CopyFault(left: seq<byte>) | AdvanceHead | CheckActive | Resume | Retest | Signal
    | StartWork | Decide | WakeTest | FinishWork
    | TimerFires | TimeoutTest | TimeoutRearm | TimeoutMissed | MissedTest | MissedQueue
    | IrqArrives | IrqTest | IrqQueue
    | CloseBegin | CloseTest | CloseSignal

  function Current(s: State): WriteCall
    requires s.calls != []
  {
    s.calls[|s.calls| - 1]
  }

  function WithCurrent(s: State, written: nat): seq<WriteCall>
    requires s.calls != []
  {
    s.calls[|s.calls| - 1 := Current(s).(written := written)]
  }

  predicate Sane(s: State) {
    && (forall c <- s.calls :: c.written <= |c.data|)
    && 2 < s.page == |s.buf| && s.head < s.page && s.tail < s.page
    && (!s.writer.NoWriter? ==> s.calls != [])
    && (s.writer.Copying? ==> s.writer.done <= s.writer.space
                              && s.head + s.writer.space <= s.page
                              && Current(s).written + s.writer.space <= |Current(s).data|)
  }

  predicate Enabled(s: State, l: Label) {
    var h := s.handlers;
    match l
    case BeginWrite(_) => s.writer.NoWriter?
    case DoLoadTail => s.writer.LoadTail?
    case DoLoadTailAgain => s.writer.LoadTailAgain?
    case DoJoinQueue => s.writer.JoinQueue?
    case CopyByte => s.writer.Copying? && s.writer.done < s.writer.space
    case CopyFault(left) => s.writer.Copying? && 0 < |left| == s.writer.space - s.writer.done
    case AdvanceHead => s.writer.Copying? && s.writer.done == s.writer.space
    case CheckActive => s.writer.LockedCheck? && !s.worker.BeforeWake?
    case Resume => s.writer.Asleep? && s.woken
    case Retest => s.writer.Asleep?     // a signal, on which wait_event tests once more
    case Signal => s.writer.Asleep?
    case StartWork => s.queued && s.worker.Idle?
    case Decide => s.worker.BeforeDecision?
    case WakeTest => s.worker.BeforeWake?
    case FinishWork => s.worker.ReadSide?
    case TimerFires => s.timer
    case TimeoutTest => h.timeout > 0
    case TimeoutRearm => h.timeoutActive > 0 && !s.worker.BeforeWake?
    case TimeoutMissed => h.timeoutActive > 0 && !s.worker.BeforeWake?
    case MissedTest => h.missed > 0
    case MissedQueue => h.missedActive > 0
    case IrqArrives => true
    case IrqTest => h.irq > 0
    case IrqQueue => h.irqActive > 0
    case CloseBegin => true
    case CloseTest => s.closing > 0
    case CloseSignal => s.closeAsleep > 0
  }

  // The top of shortp_write's loop.
  function LoopTop(call: WriteCall): WriterPc {
    if call.written < |call.data| then LoadTail(First) else NoWriter
  }

  function WriterStep(s: State, l: Label): State
    requires Sane(s) && Enabled(s, l)
  {
    match l
    case BeginWrite(data) =>
      s.(calls := s.calls + [WriteCall(data, 0)], writer := LoopTop(WriteCall(data, 0)))
    case DoLoadTail =>
      s.(writer := LoadTailAgain(s.writer.phase, s.tail, |s.emitted|))
    case DoLoadTailAgain =>
      var LoadTailAgain(phase, t1, _) := s.writer;
      var space := SpaceAt(s.page, s.head, t1, s.tail);
      var left := |Current(s).data| - Current(s).written;
      if space > 0 then s.(writer := Copying(Min(space, left), 0))
      else if phase.First? then s.(writer := LoadTail(Test))
      else if phase.Test? then s.(writer := JoinQueue)
      else s.(writer := Asleep(t1, s.tail))
    case DoJoinQueue =>
      s.(writer := LoadTail(Queued), woken := false)
    case CopyByte =>
      var Copying(space, done) := s.writer;
      s.(buf := s.buf[s.head + done := Current(s).data[Current(s).written + done]],
         writer := Copying(space, done + 1))
    case CopyFault(left) =>      // `left` is what the rest of the chunk holds then
      s.(buf := Overlay(s.buf, s.head + s.writer.done, left), writer := NoWriter)
    case AdvanceHead =>
      var n, call := s.writer.space, Current(s);
      s.(head := Incr(s.page, s.head, n),
         calls := WithCurrent(s, call.written + n),
         accepted := s.accepted + call.data[call.written..call.written + n],
         writer := LockedCheck)
    case CheckActive =>
      var t := s.(writer := LoopTop(Current(s)));
      if s.active then t else t.(active := true, timer := true, queued := true)
    case Resume => s.(writer := JoinQueue)
    case Retest => s.(writer := JoinQueue)
    case Signal => s.(writer := NoWriter)
    case _ => s
  }

  function WorkerStep(s: State, l: Label): State
    requires Sane(s) && Enabled(s, l)
  {
    match l
    case StartWork => s.(queued := false, worker := BeforeDecision)
    case Decide =>
      if s.head == s.tail then
        s.(active := false, timer := false, worker := BeforeWake,
           closing := s.closing + s.closeAsleep, closeAsleep := 0)
      else
        s.(timer := true, emitted := s.emitted + [s.buf[s.tail]], tail := Incr(s.page, s.tail, 1),
           worker := BeforeWake)
    case WakeTest =>
      s.(woken := s.woken || FreeFigure(s.page, s.head, s.tail) > s.page / 2, worker := ReadSide)
    case FinishWork => s.(worker := Idle)
    case _ => s
  }

  function HandlerStep(s: State, l: Label): State
    requires Sane(s) && Enabled(s, l)
  {
    var h := s.handlers;
    match l
    case TimerFires => s.(timer := false, handlers := h.(timeout := h.timeout + 1))
    case TimeoutTest =>
      var g := h.(timeout := h.timeout - 1);
      s.(handlers := if s.active then g.(timeoutActive := g.timeoutActive + 1) else g)
    case TimeoutRearm => s.(timer := true, handlers := h.(timeoutActive := h.timeoutActive - 1))
    case TimeoutMissed => s.(handlers := h.(timeoutActive := h.timeoutActive - 1, missed := h.missed + 1))
    case MissedTest =>
      var g := h.(missed := h.missed - 1);
      s.(handlers := if s.active then g.(missedActive := g.missedActive + 1) else g)
    case MissedQueue => s.(queued := true, handlers := h.(missedActive := h.missedActive - 1))
    case IrqArrives => s.(handlers := h.(irq := h.irq + 1))
    case IrqTest =>
      var g := h.(irq := h.irq - 1);
      s.(handlers := if s.active then g.(irqActive := g.irqActive + 1) else g)
    case IrqQueue => s.(queued := true, handlers := h.(irqActive := h.irqActive - 1))
    case _ => s
  }

  function CloseStep(s: State, l: Label): State
    requires Sane(s) && Enabled(s, l)
  {
    match l
    case CloseBegin => s.(closing := s.closing + 1)
    case CloseTest =>
      var t := s.(closing := s.closing - 1);
      if s.active then t.(closeAsleep := t.closeAsleep + 1) else t
    case CloseSignal => s.(closeAsleep := s.closeAsleep - 1)
    case _ => s
  }

  predicate ByWriter(l: Label) {
    l.BeginWrite? || l.DoLoadTail? || l.DoLoadTailAgain? || l.DoJoinQueue? || l.CopyByte? || l.CopyFault?
    || l.AdvanceHead? || l.CheckActive? || l.Resume? || l.Retest?
    || l.Signal?
  }

  predicate ByWorker(l: Label) {
    l.StartWork? || l.Decide? || l.WakeTest? || l.FinishWork?
  }

  predicate ByCloser(l: Label) {
    l.CloseBegin? || l.CloseTest? || l.CloseSignal?
  }

  function Next(s: State, l: Label): State
    requires Sane(s) && Enabled(s, l)
  {
    if ByWriter(l) then WriterStep(s, l)
    else if ByWorker(l) then WorkerStep(s, l)
    else if ByCloser(l) then CloseStep(s, l)
    else HandlerStep(s, l)
  }

  // --- Invariants ---

  // The accepted stream is the write calls' bytes, one call after another.
  ghost function Stream(calls: seq<WriteCall>): seq<byte>
    requires forall c <- calls :: c.written <= |c.data|
  {
    if calls == [] then [] else
      var last := calls[|calls| - 1];
      Stream(calls[..|calls| - 1]) + last.data[..last.written]
  }

  ghost predicate Ordered(s: State)
    requires Sane(s)
  {
    s.accepted == Stream(s.calls)
  }

  ghost predicate RingOk(s: State)
    requires Sane(s)
  {
    && s.emitted <= s.accepted
    && |s.accepted| < |s.emitted| + s.page
    && s.head == |s.accepted| % s.page
    && s.tail == |s.emitted| % s.page
    && Window(s.buf, s.accepted, |s.emitted|)
  }

  // A writer that copies stays clear of every unsent byte.
  ghost predicate WriterOk(s: State)
    requires Sane(s)
  {
    && (s.writer.LoadTail? || s.writer.LoadTailAgain? || s.writer.JoinQueue? || s.writer.Asleep? ==>
          Current(s).written < |Current(s).data|)
    && (s.writer.LoadTailAgain? ==>
          && s.writer.e1 <= |s.emitted|
          && |s.accepted| < s.writer.e1 + s.page
          && s.writer.t1 == s.writer.e1 % s.page)
    && (s.writer.Copying? ==>
          && 0 < s.writer.space
          && |s.accepted| + s.writer.space < |s.emitted| + s.page
          && s.buf[s.head..s.head + s.writer.done] ==
             Current(s).data[Current(s).written..Current(s).written + s.writer.done])
  }

  // Output in progress is always carried on by somebody, and stops only on an empty ring.
  ghost predicate DriveOk(s: State) {
    && (s.active ==> s.queued || s.worker.BeforeDecision? || s.timer
                     || s.handlers.timeout + s.handlers.timeoutActive + s.handlers.missed + s.handlers.missedActive > 0)
    && (!s.active && s.head != s.tail ==> s.writer.LockedCheck?)
    && (s.closeAsleep > 0 ==> s.active)
  }

  // Bytes in the ring at which the free figure is still too low for a wake-up.
  function QuietFrom(page: nat): nat { page - page / 2 }

  ghost function Stored(s: State): int { |s.accepted| - |s.emitted| }

  // What a writer on the queue that has not been woken can rely on.
  ghost predicate WaitOk(s: State)
    requires Sane(s)
  {
    !s.woken ==>
      match s.writer
      case LoadTailAgain(Queued, t1, e1) =>
        || |s.emitted| == e1
        || Stored(s) >= QuietFrom(s.page)
        || (|s.emitted| == e1 + 1 && Stored(s) == 0)
        || (s.worker.BeforeWake? && Stored(s) > 0)
      case Asleep(t1, t2) =>
        if LostEvaluation(s.page, s.head, t1, t2) then Stored(s) == 0
        else Stored(s) >= QuietFrom(s.page) || (s.worker.BeforeWake? && Stored(s) > 0)
      case _ => true
  }

  ghost predicate Inv(s: State) {
    Sane(s) && Ordered(s) && RingOk(s) && WriterOk(s) && DriveOk(s) && WaitOk(s)
  }

  lemma CopyFills(buf: seq<byte>, head: nat, data: seq<byte>, from: nat, done: nat)
    requires head + done < |buf| && from + done < |data|
    requires buf[head..head + done] == data[from..from + done]
    ensures buf[head + done := data[from + done]][head..head + done + 1] == data[from..from + done + 1]
  {
    var buf' := buf[head + done := data[from + done]];
    assert buf'[head..head + done] == buf[head..head + done];
    assert buf'[head..head + done + 1] == buf'[head..head + done] + [data[from + done]];
    assert data[from..from + done + 1] == data[from..from + done] + [data[from + done]];
  }

  lemma CopyKeepsInv(s: State)
    requires Inv(s) && Enabled(s, CopyByte)
    ensures Inv(Next(s, CopyByte))
  {
    var Copying(space, done) := s.writer;
    var t := Next(s, CopyByte);
    CopyFills(s.buf, s.head, Current(s).data, Current(s).written, done);
    StoreKeepsWindow(s.buf, s.accepted, |s.emitted|, space, t.buf);
  }

  lemma FaultKeepsInv(s: State, left: seq<byte>)
    requires Inv(s) && Enabled(s, CopyFault(left))
    ensures Inv(Next(s, CopyFault(left)))
  {
    var t := Next(s, CopyFault(left));
    StoreKeepsWindow(s.buf, s.accepted, |s.emitted|, s.writer.space, t.buf);
  }

  // More of the last call's bytes in the ring are more bytes at the end of the stream.
  lemma StreamOfLast(calls: seq<WriteCall>, written: nat)
    requires calls != [] && forall c <- calls :: c.written <= |c.data|
    requires var call := calls[|calls| - 1]; call.written <= written <= |call.data|
    ensures var call := calls[|calls| - 1];
            var longer := calls[|calls| - 1 := call.(written := written)];
            && (forall c <- longer :: c.written <= |c.data|)
            && Stream(longer) == Stream(calls) + call.data[call.written..written]
  {
    var call := calls[|calls| - 1];
    var longer := calls[|calls| - 1 := call.(written := written)];
    assert longer[..|longer| - 1] == calls[..|calls| - 1];
    assert call.data[..written] == call.data[..call.written] + call.data[call.written..written];
  }

  lemma AdvanceKeepsOrder(s: State)
    requires Sane(s) && Ordered(s) && Enabled(s, AdvanceHead)
    ensures var t := Next(s, AdvanceHead);
            (forall c <- t.calls :: c.written <= |c.data|) && t.accepted == Stream(t.calls)
  {
    var call := Current(s);
    StreamOfLast(s.calls, call.written + s.writer.space);
    assert WithCurrent(s, call.written + s.writer.space) == Next(s, AdvanceHead).calls;
  }

  // The chunk copied is in the page after the head, as the writer's bytes.
  lemma ChunkInPlace(s: State, chunk: seq<byte>)
    requires Sane(s) && WriterOk(s) && Enabled(s, AdvanceHead)
    requires chunk == Current(s).data[Current(s).written..Current(s).written + s.writer.space]
    ensures |chunk| == s.writer.space && s.buf[s.head..s.head + |chunk|] == chunk
    ensures var t := Next(s, AdvanceHead);
            t.head == Incr(s.page, s.head, |chunk|) && t.accepted == s.accepted + chunk && t.buf == s.buf
  {
  }

  lemma AdvanceKeepsRing(s: State)
    requires Sane(s) && RingOk(s) && WriterOk(s) && Enabled(s, AdvanceHead)
    ensures var t := Next(s, AdvanceHead);
            && |t.accepted| < |t.emitted| + t.page && t.head == |t.accepted| % t.page && t.head < t.page
            && Window(t.buf, t.accepted, |t.emitted|)
  {
    var chunk := Current(s).data[Current(s).written..Current(s).written + s.writer.space];
    ChunkInPlace(s, chunk);
    WindowGrows(s.buf, s.accepted, |s.emitted|, chunk);
    IncrIsModular(s.page, |s.accepted|, |chunk|);
  }

  lemma AdvanceKeepsInv(s: State)
    requires Inv(s) && Enabled(s, AdvanceHead)
    ensures Inv(Next(s, AdvanceHead))
  {
    AdvanceKeepsRing(s);
    AdvanceKeepsOrder(s);
  }

  lemma OnlyWriterMoves(s: State, t: State)
    requires Inv(s) && t == s.(writer := t.writer) && Sane(t)
    requires t.writer.LoadTail? || t.writer.JoinQueue? || t.writer.Asleep?
    requires s.writer.LoadTailAgain? && WaitOk(t)
    ensures Inv(t)
  {
  }

  lemma SleepIsJustified(s: State, t1: nat, e1: nat)
    requires Inv(s) && s.writer == LoadTailAgain(Queued, t1, e1) && !s.woken
    requires SpaceAt(s.page, s.head, t1, s.tail) <= 0
    ensures if LostEvaluation(s.page, s.head, t1, s.tail) then Stored(s) == 0
            else Stored(s) >= QuietFrom(s.page) || (s.worker.BeforeWake? && Stored(s) > 0)
  {
    NoSpaceMeans(s.page, e1, |s.emitted|, |s.accepted|);
  }

  lemma GivingUpKeepsInv(s: State)
    requires Inv(s) && Enabled(s, DoLoadTailAgain)
    requires SpaceAt(s.page, s.head, s.writer.t1, s.tail) <= 0
    ensures Inv(Next(s, DoLoadTailAgain))
  {
    var t := Next(s, DoLoadTailAgain);
    assert t == s.(writer := t.writer);
    if s.writer.phase.Queued? && !s.woken {
      SleepIsJustified(s, s.writer.t1, s.writer.e1);
    }
    OnlyWriterMoves(s, t);
  }

  lemma EvaluationKeepsInv(s: State)
    requires Inv(s) && Enabled(s, DoLoadTailAgain)
    ensures Inv(Next(s, DoLoadTailAgain))
  {
    if SpaceAt(s.page, s.head, s.writer.t1, s.tail) > 0 {
      SpaceIsSafe(s.page, s.writer.e1, |s.emitted|, |s.accepted|);
    } else {
      GivingUpKeepsInv(s);
    }
  }

  lemma WriterKeepsInv(s: State, l: Label)
    requires Inv(s) && Enabled(s, l) && ByWriter(l)
    ensures Inv(Next(s, l))
  {
    match l
    case CopyByte => CopyKeepsInv(s);
    case CopyFault(left) => FaultKeepsInv(s, left);
    case AdvanceHead => AdvanceKeepsInv(s);
    case DoLoadTailAgain => EvaluationKeepsInv(s);
    case BeginWrite(data) =>
      var t := Next(s, l);
      assert t.calls[..|t.calls| - 1] == s.calls;
    case _ =>
  }

  lemma StopKeepsInv(s: State)
    requires Inv(s) && Enabled(s, Decide) && s.head == s.tail
    ensures Inv(Next(s, Decide))
  {
    Lap(s.page, |s.emitted|, |s.accepted|);
  }

  lemma EmitKeepsRing(s: State)
    requires Inv(s) && Enabled(s, Decide) && s.head != s.tail
    ensures var t := Next(s, Decide); Sane(t) && Ordered(t) && RingOk(t) && Stored(t) == Stored(s) - 1
  {
    var e, a, t := |s.emitted|, |s.accepted|, Next(s, Decide);
    IncrIsModular(s.page, e, 1);
    assert e < a && s.buf[e % |s.buf|] == s.accepted[e];
    assert s.accepted[..e + 1] == s.accepted[..e] + [s.accepted[e]];
  }

  lemma EmitKeepsWaiting(s: State, t: State)
    requires Inv(s) && Enabled(s, Decide) && s.head != s.tail && t == Next(s, Decide)
    requires Sane(t) && RingOk(t) && Stored(t) == Stored(s) - 1
    ensures WriterOk(t) && DriveOk(t) && WaitOk(t)
  {
  }

  lemma EmitKeepsInv(s: State)
    requires Inv(s) && Enabled(s, Decide) && s.head != s.tail
    ensures Inv(Next(s, Decide))
  {
    var t := Next(s, Decide);
    EmitKeepsRing(s);
    EmitKeepsWaiting(s, t);
  }

  lemma WakeTestKeepsInv(s: State)
    requires Inv(s) && Enabled(s, WakeTest)
    ensures Inv(Next(s, WakeTest))
  {
    var t := Next(s, WakeTest);
    assert t == s.(woken := t.woken, worker := ReadSide);
    assert WaitOk(t) by { FreeFigureIs(s.page, |s.emitted|, |s.accepted|); }
  }

  lemma WorkerKeepsInv(s: State, l: Label)
    requires Inv(s) && Enabled(s, l) && ByWorker(l)
    ensures Inv(Next(s, l))
  {
    match l
    case Decide => if s.head == s.tail { StopKeepsInv(s); } else { EmitKeepsInv(s); }
    case WakeTest => WakeTestKeepsInv(s);
    case _ =>
  }

  // Handlers and closing processes touch only what drives the output and waits for its end.
  lemma DriveChange(s: State, t: State)
    requires Inv(s) && DriveOk(t)
    requires t == s.(timer := t.timer, handlers := t.handlers, queued := t.queued,
                     closing := t.closing, closeAsleep := t.closeAsleep)
    ensures Inv(t)
  {
  }

  lemma TimerKeepsDrive(s: State, l: Label)
    requires Sane(s) && DriveOk(s) && Enabled(s, l)
    requires l.TimerFires? || l.TimeoutTest? || l.TimeoutRearm? || l.TimeoutMissed?
    ensures DriveOk(Next(s, l))
  {
  }

  lemma HandlerKeepsDrive(s: State, l: Label)
    requires Sane(s) && DriveOk(s) && Enabled(s, l) && !ByWriter(l) && !ByWorker(l)
    ensures DriveOk(Next(s, l))
  {
    if l.TimerFires? || l.TimeoutTest? || l.TimeoutRearm? || l.TimeoutMissed? { TimerKeepsDrive(s, l); }
  }

  // What a handler or a closing process leaves alone.
  ghost predicate OnlyDrives(s: State, t: State) {
    t == s.(timer := t.timer, handlers := t.handlers, queued := t.queued,
            closing := t.closing, closeAsleep := t.closeAsleep)
  }

  lemma CloserFrame(s: State, l: Label)
    requires Sane(s) && Enabled(s, l) && ByCloser(l)
    ensures OnlyDrives(s, Next(s, l))
  {
  }

  lemma HandlerFrame(s: State, l: Label)
    requires Sane(s) && Enabled(s, l) && !ByWriter(l) && !ByWorker(l)
    ensures OnlyDrives(s, Next(s, l))
  {
    if ByCloser(l) { CloserFrame(s, l); } else { assert Next(s, l) == HandlerStep(s, l); }
  }

  lemma HandlerKeepsInv(s: State, l: Label)
    requires Inv(s) && Enabled(s, l) && !ByWriter(l) && !ByWorker(l)
    ensures Inv(Next(s, l))
  {
    var t := Next(s, l);
    HandlerFrame(s, l);
    HandlerKeepsDrive(s, l);
    DriveChange(s, t);
  }

  lemma StepKeepsInv(s: State, l: Label)
    requires Inv(s) && Enabled(s, l)
    ensures Inv(Next(s, l))
  {
    if ByWriter(l) { WriterKeepsInv(s, l); }
    else if ByWorker(l) { WorkerKeepsInv(s, l); }
    else { HandlerKeepsInv(s, l); }
  }
}
