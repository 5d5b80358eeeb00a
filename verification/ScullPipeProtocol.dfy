// Any number of processes reading, writing and polling one scull pipe, with every
// sleep and wake-up a step of its own (ldd/scull/pipe.c). Each critical section is one
// step; the conditions tested without the semaphore load rp and wp one at a time, and
// spacefree, which names each of them twice, loads each of them twice.
module ScullPipeProtocol {
  import opened Common
  import opened ScullPipe

  datatype Call =
    | ReadCall(count: nat, nonblock: bool)
    | WriteCall(data: seq<byte>, nonblock: bool)
    | PollCall(wantIn: bool, wantOut: bool)
  {
    predicate OnInq() {
      ReadCall? || (PollCall? && wantIn)
    }

    predicate OnOutq() {
      WriteCall? || (PollCall? && wantOut)
    }
  }

  // Where a call has got to. `woken` is set by a wake-up that finds the process on
  // its queue, and makes the schedule() that follows return at once.
  datatype Pc =
    | Entering                        // about to take the semaphore
    | Preparing                       // semaphore released, not on the queue yet
    | Queued(woken: bool)             // on the queue, condition not tested yet
    | SawRp(seen: nat, woken: bool)   // comparing the pointers, rp loaded
    | SawWp(seen: nat, woken: bool)   // comparing the pointers, wp loaded
    | Differed(woken: bool)           // spacefree only: found them different
    | SawRpAgain(seen: nat, woken: bool)
    | SawWpAgain(seen: nat, woken: bool)
    | Asleep(woken: bool)
    | Waking                          // section done, semaphore released, wake_up to come

  datatype Process = Process(call: Call, pc: Pc) {
    predicate Waits() {
      pc.Queued? || pc.SawRp? || pc.SawWp? || pc.Differed? || pc.SawRpAgain? || pc.SawWpAgain? || pc.Asleep?
    }

    function Wake(): Process {
      match pc
      case Queued(_) => this.(pc := Queued(true))
      case SawRp(v, _) => this.(pc := SawRp(v, true))
      case SawWp(v, _) => this.(pc := SawWp(v, true))
      case Differed(_) => this.(pc := Differed(true))
      case SawRpAgain(v, _) => this.(pc := SawRpAgain(v, true))
      case SawWpAgain(v, _) => this.(pc := SawWpAgain(v, true))
      case Asleep(_) => this.(pc := Asleep(true))
      case _ => this
    }
  }

  datatype State = State(ring: Ring, procs: map<nat, Process>, accepted: seq<byte>, delivered: seq<byte>)

  datatype Label =
    | Enter(call: Call)
    | Section              // down(), the test, and the whole section or the up() before waiting
    | FaultingSection(left: seq<byte>)   // `left` is what the copy leaves behind wp
    | Recheck              // wait_event's test before it joins the queue comes out true
    | Prepare
    | LoadRp
    | LoadWp
    | Compare              // load the other pointer and act on the comparison
    | LoadRpAgain
    | LoadWpAgain
    | Subtract             // load the other pointer and act on the free space
    | Resume
    | Signal
    | Retest               // a signal, on which wait_event tests once more before it gives up
    | WakeUp

  predicate Ready(ring: Ring, call: Call)
    requires ring.Valid()
  {
    match call
    case ReadCall(_, _) => ring.rp != ring.wp
    case WriteCall(_, _) => ring.SpaceFree() != 0
    case PollCall(i, o) => (i && ring.rp != ring.wp) || (o && ring.SpaceFree() != 0)
  }

  // spacefree on the second pair of loads; the first pair was different.
  function FreeAgain(size: nat, rp: nat, wp: nat): int
    requires rp < size && wp < size
  {
    (rp + size - wp) % size - 1
  }

  // Pointers loaded are in bounds, and only spacefree compares them before it subtracts.
  predicate PcOk(size: nat, pr: Process) {
    match pr.pc
    case SawRp(v, _) => v < size && !pr.call.PollCall?
    case SawWp(v, _) => v < size && !pr.call.PollCall?
    case Differed(_) => pr.call.WriteCall?
    case SawRpAgain(v, _) => v < size && pr.call.WriteCall?
    case SawWpAgain(v, _) => v < size && pr.call.WriteCall?
    case _ => true
  }

  ghost predicate WellTyped(s: State) {
    && s.ring.Valid()
    && forall q :: q in s.procs ==> PcOk(|s.ring.buf|, s.procs[q])
  }

  ghost function WriteCount(ring: Ring, data: seq<byte>): (n: nat)
    requires ring.Valid()
    ensures n <= |data|
  {
    Min(|data|, ring.WriteRoom())
  }

  ghost predicate Enabled(s: State, p: nat, l: Label)
    requires s.ring.Valid()
  {
    if l.Enter? then p !in s.procs else
    p in s.procs &&
    var pr := s.procs[p];
    match l
    case Enter(_) => false
    case Section => pr.pc.Entering?
    case FaultingSection(left) =>
      pr.pc.Entering? && !pr.call.PollCall? && Ready(s.ring, pr.call)
      && (if pr.call.ReadCall? then pr.call.count > 0 else 0 < |left| == WriteCount(s.ring, pr.call.data))
    case Recheck => pr.pc.Preparing? && pr.call.ReadCall?
    case Prepare => pr.pc.Preparing?
    case LoadRp => pr.pc.Queued? && !pr.call.PollCall?
    case LoadWp => pr.pc.Queued? && !pr.call.PollCall?
    case Compare => pr.pc.SawRp? || pr.pc.SawWp?
    case LoadRpAgain => pr.pc.Differed?
    case LoadWpAgain => pr.pc.Differed?
    case Subtract => pr.pc.SawRpAgain? || pr.pc.SawWpAgain?
    case Resume => pr.pc.Asleep? && pr.pc.woken
    case Retest => pr.pc.Asleep? && pr.call.ReadCall?
    case Signal => !pr.pc.Waking? && !(pr.pc.Entering? && pr.call.PollCall?)
    case WakeUp => pr.pc.Waking?
  }

  ghost function ReadCount(ring: Ring, count: nat): nat
    requires ring.Valid()
  {
    Min(count, ring.ReadRoom())
  }

  ghost function RunSection(s: State, p: nat): State
    requires WellTyped(s) && p in s.procs
  {
    var call, ring := s.procs[p].call, s.ring;
    if Ready(ring, call) then
      match call
      case ReadCall(count, _) =>
        var n := ReadCount(ring, count);
        s.(ring := ring.Take(n),
           delivered := s.delivered + ring.buf[ring.rp..ring.rp + n],
           procs := s.procs[p := Process(call, Waking)])
      case WriteCall(data, _) =>
        var bytes := data[..WriteCount(ring, data)];
        s.(ring := ring.Put(bytes),
           accepted := s.accepted + bytes,
           procs := s.procs[p := Process(call, Waking)])
      case PollCall(_, _) => s.(procs := s.procs - {p})
    else if call.PollCall? then
      s.(procs := s.procs[p := Process(call, Asleep(false))])   // poll_wait queued it under the semaphore
    else if call.nonblock then
      s.(procs := s.procs - {p})                                // -EAGAIN
    else
      s.(procs := s.procs[p := Process(call, Preparing)])
  }

  ghost function Fault(s: State, p: nat, left: seq<byte>): State
    requires WellTyped(s) && Enabled(s, p, FaultingSection(left))
  {
    var call := s.procs[p].call;
    var ring := if call.WriteCall? then s.ring.Scribble(left) else s.ring;
    s.(ring := ring, procs := s.procs - {p})                    // -EFAULT, and no wake-up
  }

  // wake_up_interruptible: every process on the queue is made runnable.
  ghost function WakeAll(procs: map<nat, Process>, inq: bool): map<nat, Process> {
    map q | q in procs ::
      if procs[q].Waits() && (if inq then procs[q].call.OnInq() else procs[q].call.OnOutq())
      then procs[q].Wake() else procs[q]
  }

  function Moved(s: State, p: nat, pc: Pc): State
    requires p in s.procs
  {
    s.(procs := s.procs[p := s.procs[p].(pc := pc)])
  }

  // What follows the unlocked test: back to the semaphore, or schedule().
  function Tested(ready: bool, woken: bool): Pc {
    if ready then Entering else Asleep(woken)
  }

  ghost function Next(s: State, p: nat, l: Label): State
    requires WellTyped(s) && Enabled(s, p, l)
  {
    if l.Enter? then s.(procs := s.procs[p := Process(l.call, Entering)]) else
    var Process(call, pc) := s.procs[p];
    match l
    case Enter(_) => s
    case Section => RunSection(s, p)
    case FaultingSection(left) => Fault(s, p, left)
    case Recheck => Moved(s, p, Entering)
    case Prepare => Moved(s, p, Queued(false))
    case LoadRp => Moved(s, p, SawRp(s.ring.rp, pc.woken))
    case LoadWp => Moved(s, p, SawWp(s.ring.wp, pc.woken))
    case Compare =>
      var same := if pc.SawRp? then pc.seen == s.ring.wp else pc.seen == s.ring.rp;
      Moved(s, p, if !call.WriteCall? then Tested(!same, pc.woken)
                  else if same then Tested(|s.ring.buf| - 1 != 0, pc.woken)
                  else Differed(pc.woken))
    case LoadRpAgain => Moved(s, p, SawRpAgain(s.ring.rp, pc.woken))
    case LoadWpAgain => Moved(s, p, SawWpAgain(s.ring.wp, pc.woken))
    case Subtract =>
      var free := if pc.SawRpAgain? then FreeAgain(|s.ring.buf|, pc.seen, s.ring.wp)
                  else FreeAgain(|s.ring.buf|, s.ring.rp, pc.seen);
      Moved(s, p, Tested(free != 0, pc.woken))
    case Resume =>      // wait_event queues itself again; the writer's loop goes back to down(), select() polls again
      Moved(s, p, if call.ReadCall? then Queued(false) else Entering)
    case Retest => Moved(s, p, Queued(false))
    case Signal => s.(procs := s.procs - {p})
    case WakeUp => s.(procs := WakeAll(s.procs - {p}, call.WriteCall?))
  }

  // --- What every step keeps ---

  ghost predicate WakePending(s: State, byWriter: bool) {
    exists q :: q in s.procs && s.procs[q].pc.Waking? && s.procs[q].call.WriteCall? == byWriter
  }

  // A process on inq that no wake-up has reached knows the truth about emptiness,
  // unless some writer has still to issue its wake-up.
  ghost predicate InqSafe(s: State, pr: Process)
    requires s.ring.Valid()
  {
    pr.call.OnInq() ==>
      match pr.pc
      case Asleep(false) => s.ring.rp == s.ring.wp
      case SawRp(v, false) => v == s.ring.wp ==> s.ring.rp == s.ring.wp
      case SawWp(v, false) => v == s.ring.wp
      case _ => true
  }

  ghost predicate OutqSafe(s: State, pr: Process)
    requires s.ring.Valid()
  {
    pr.call.OnOutq() ==>
      match pr.pc
      case Asleep(false) => s.ring.SpaceFree() == 0
      case SawRpAgain(v, false) => v == s.ring.rp
      case SawWpAgain(v, false) =>
        v < |s.ring.buf| && FreeAgain(|s.ring.buf|, s.ring.rp, v) == 0 ==> s.ring.SpaceFree() == 0
      case _ => true
  }

  ghost predicate ReadersSafe(s: State)
    requires s.ring.Valid()
  {
    WakePending(s, true) || forall q :: q in s.procs ==> InqSafe(s, s.procs[q])
  }

  ghost predicate WritersSafe(s: State)
    requires s.ring.Valid()
  {
    WakePending(s, false) || forall q :: q in s.procs ==> OutqSafe(s, s.procs[q])
  }

  ghost predicate Fifo(s: State)
    requires s.ring.Valid()
  {
    s.delivered + s.ring.Contents() == s.accepted
  }

  ghost predicate Inv(s: State) {
    WellTyped(s) && Fifo(s) && ReadersSafe(s) && WritersSafe(s)
  }

  // One process moving on, other than out of Waking, withdraws nobody's pending wake-up.
  lemma PendingKept(s: State, t: State, p: nat, byWriter: bool)
    requires forall q :: q in s.procs && q != p ==> q in t.procs && t.procs[q] == s.procs[q]
    requires p in s.procs ==> !s.procs[p].pc.Waking?
    requires WakePending(s, byWriter)
    ensures WakePending(t, byWriter)
  {
    var q :| q in s.procs && s.procs[q].pc.Waking? && s.procs[q].call.WriteCall? == byWriter;
    assert q in t.procs && t.procs[q] == s.procs[q];
  }

  ghost predicate OnlyMoves(s: State, t: State, p: nat) {
    && (forall q :: q in s.procs && q != p ==> q in t.procs && t.procs[q] == s.procs[q])
    && (forall q :: q in t.procs && q != p ==> q in s.procs)
  }

  // What the others know stays true if the ring does not belie it.
  lemma ReadersStaySafe(s: State, t: State, p: nat)
    requires s.ring.Valid() && t.ring.Valid() && ReadersSafe(s) && OnlyMoves(s, t, p)
    requires WakePending(s, true) ==> WakePending(t, true)
    requires forall pr: Process :: InqSafe(s, pr) ==> InqSafe(t, pr)
    requires p in t.procs && !WakePending(s, true) ==> InqSafe(t, t.procs[p])
    ensures ReadersSafe(t)
  {
  }

  lemma WritersStaySafe(s: State, t: State, p: nat)
    requires s.ring.Valid() && t.ring.Valid() && WritersSafe(s) && OnlyMoves(s, t, p)
    requires WakePending(s, false) ==> WakePending(t, false)
    requires forall pr: Process :: OutqSafe(s, pr) ==> OutqSafe(t, pr)
    requires p in t.procs && !WakePending(s, false) ==> OutqSafe(t, t.procs[p])
    ensures WritersSafe(t)
  {
  }

  // Taking bytes out of a non-empty ring makes no reader's belief false, and storing
  // bytes in a ring that is not full no writer's.
  lemma TakeKeepsInqSafe(s: State, t: State, n: nat)
    requires s.ring.Valid() && s.ring.rp != s.ring.wp && t.ring == s.ring.Take(n) && t.ring.Valid()
    ensures forall pr: Process :: InqSafe(s, pr) ==> InqSafe(t, pr)
  {
  }

  lemma PutKeepsOutqSafe(s: State, t: State, bytes: seq<byte>)
    requires s.ring.Valid() && s.ring.SpaceFree() != 0 && s.ring.wp + |bytes| <= |s.ring.buf|
    requires t.ring == s.ring.Put(bytes) && t.ring.Valid()
    ensures forall pr: Process :: OutqSafe(s, pr) ==> OutqSafe(t, pr)
  {
  }

  // A spacefree that comes out 0 on the pointers as they are is right.
  lemma AgainMeansFull(r: Ring)
    requires r.Valid() && FreeAgain(|r.buf|, r.rp, r.wp) == 0
    ensures r.SpaceFree() == 0
  {
    DigitsUnique(|r.buf|, 1, 0);
  }

  lemma TakeMovesBytes(delivered: seq<byte>, r: Ring, n: nat)
    requires r.Valid() && n <= r.ReadRoom()
    ensures r.Take(n).Valid()
    ensures delivered + r.Contents() == delivered + r.buf[r.rp..r.rp + n] + r.Take(n).Contents()
  {
    TakeDropsOldest(r, n);
    var bytes := r.buf[r.rp..r.rp + n];
    assert delivered + bytes + r.Take(n).Contents() == delivered + (bytes + r.Take(n).Contents());
  }

  lemma ReadSection(s: State, p: nat, n: nat)
    requires WellTyped(s) && p in s.procs && s.procs[p].call.ReadCall? && Ready(s.ring, s.procs[p].call)
    requires n == ReadCount(s.ring, s.procs[p].call.count)
    ensures n <= s.ring.ReadRoom() && s.ring.rp + n <= |s.ring.buf|
    ensures RunSection(s, p) == State(s.ring.Take(n), s.procs[p := Process(s.procs[p].call, Waking)],
                                      s.accepted, s.delivered + s.ring.buf[s.ring.rp..s.ring.rp + n])
  {
  }

  // A process that has done its section is on its way to wake the others.
  lemma DoneKeepsTypes(s: State, p: nat, ring: Ring, accepted: seq<byte>, delivered: seq<byte>)
    requires WellTyped(s) && p in s.procs && ring.Valid() && |ring.buf| == |s.ring.buf|
    ensures WellTyped(State(ring, s.procs[p := Process(s.procs[p].call, Waking)], accepted, delivered))
  {
  }

  lemma ReadKeepsFifo(s: State, p: nat)
    requires WellTyped(s) && Fifo(s) && p in s.procs && s.procs[p].call.ReadCall? && Ready(s.ring, s.procs[p].call)
    ensures WellTyped(RunSection(s, p)) && Fifo(RunSection(s, p))
  {
    var n := ReadCount(s.ring, s.procs[p].call.count);
    ReadSection(s, p, n);
    var delivered := s.delivered + s.ring.buf[s.ring.rp..s.ring.rp + n];
    TakeMovesBytes(s.delivered, s.ring, n);
    DoneKeepsTypes(s, p, s.ring.Take(n), s.accepted, delivered);
  }

  lemma ReadKeepsInv(s: State, p: nat)
    requires Inv(s) && Enabled(s, p, Section) && s.procs[p].call.ReadCall? && Ready(s.ring, s.procs[p].call)
    ensures Inv(Next(s, p, Section))
  {
    var t := Next(s, p, Section);
    ReadKeepsFifo(s, p);
    TakeKeepsInqSafe(s, t, ReadCount(s.ring, s.procs[p].call.count));
    if WakePending(s, true) { PendingKept(s, t, p, true); }
    ReadersStaySafe(s, t, p);
    assert t.procs[p].pc.Waking? && WakePending(t, false);
  }

  lemma PutMovesBytes(delivered: seq<byte>, r: Ring, bytes: seq<byte>)
    requires r.Valid() && |bytes| <= r.WriteRoom()
    ensures r.Put(bytes).Valid()
    ensures delivered + r.Put(bytes).Contents() == delivered + r.Contents() + bytes
  {
    PutAppends(r, bytes);
    assert delivered + (r.Contents() + bytes) == delivered + r.Contents() + bytes;
  }

  lemma WriteSection(s: State, p: nat, bytes: seq<byte>)
    requires WellTyped(s) && p in s.procs && s.procs[p].call.WriteCall? && Ready(s.ring, s.procs[p].call)
    requires bytes == s.procs[p].call.data[..WriteCount(s.ring, s.procs[p].call.data)]
    ensures |bytes| <= s.ring.WriteRoom() && s.ring.wp + |bytes| <= |s.ring.buf|
    ensures RunSection(s, p) == State(s.ring.Put(bytes), s.procs[p := Process(s.procs[p].call, Waking)],
                                      s.accepted + bytes, s.delivered)
  {
  }

  lemma WriteKeepsFifo(s: State, p: nat)
    requires WellTyped(s) && Fifo(s) && p in s.procs && s.procs[p].call.WriteCall? && Ready(s.ring, s.procs[p].call)
    ensures WellTyped(RunSection(s, p)) && Fifo(RunSection(s, p))
  {
    var bytes := s.procs[p].call.data[..WriteCount(s.ring, s.procs[p].call.data)];
    WriteSection(s, p, bytes);
    PutMovesBytes(s.delivered, s.ring, bytes);
    DoneKeepsTypes(s, p, s.ring.Put(bytes), s.accepted + bytes, s.delivered);
  }

  lemma WriteKeepsInv(s: State, p: nat)
    requires Inv(s) && Enabled(s, p, Section) && s.procs[p].call.WriteCall? && Ready(s.ring, s.procs[p].call)
    ensures Inv(Next(s, p, Section))
  {
    var data, t := s.procs[p].call.data, Next(s, p, Section);
    WriteKeepsFifo(s, p);
    PutKeepsOutqSafe(s, t, data[..WriteCount(s.ring, data)]);
    if WakePending(s, false) { PendingKept(s, t, p, false); }
    WritersStaySafe(s, t, p);
    assert t.procs[p].pc.Waking? && WakePending(t, true);
  }

  // A step that leaves both pointers alone keeps every belief; p has to be looked at.
  lemma StillSafe(s: State, t: State, p: nat)
    requires Inv(s) && t.ring.Valid() && OnlyMoves(s, t, p)
    requires |t.ring.buf| == |s.ring.buf| && t.ring.rp == s.ring.rp && t.ring.wp == s.ring.wp
    requires p in s.procs ==> !s.procs[p].pc.Waking?
    requires p in t.procs && (p in s.procs ==> InqSafe(s, s.procs[p])) ==> InqSafe(t, t.procs[p])
    requires p in t.procs && (p in s.procs ==> OutqSafe(s, s.procs[p])) ==> OutqSafe(t, t.procs[p])
    ensures ReadersSafe(t) && WritersSafe(t)
  {
    if WakePending(s, true) { PendingKept(s, t, p, true); }
    if WakePending(s, false) { PendingKept(s, t, p, false); }
    ReadersStaySafe(s, t, p);
    WritersStaySafe(s, t, p);
  }

  lemma WaitKeepsInv(s: State, p: nat)
    requires Inv(s) && Enabled(s, p, Section) && (s.procs[p].call.PollCall? || !Ready(s.ring, s.procs[p].call))
    ensures Inv(Next(s, p, Section))
  {
    StillSafe(s, Next(s, p, Section), p);
  }

  lemma FaultKeepsInv(s: State, p: nat, left: seq<byte>)
    requires Inv(s) && Enabled(s, p, FaultingSection(left))
    ensures Inv(Next(s, p, FaultingSection(left)))
  {
    if s.procs[p].call.WriteCall? {
      ScribbleIsInvisible(s.ring, left);
    }
    StillSafe(s, Next(s, p, FaultingSection(left)), p);
  }

  // A process that has been woken, or does not wait, believes nothing.
  lemma WokenIsSafe(s: State, t: State, pr: Process)
    requires s.ring.Valid() && t.ring == s.ring
    ensures InqSafe(s, pr) ==> InqSafe(t, pr) && InqSafe(t, pr.Wake())
    ensures OutqSafe(s, pr) ==> OutqSafe(t, pr) && OutqSafe(t, pr.Wake())
    ensures InqSafe(t, pr.Wake()) && OutqSafe(t, pr.Wake())
    ensures !pr.Waits() || !pr.call.OnInq() ==> InqSafe(t, pr)
    ensures !pr.Waits() || !pr.call.OnOutq() ==> OutqSafe(t, pr)
  {
  }

  lemma WakeUpKeepsPending(s: State, p: nat, byWriter: bool)
    requires WellTyped(s) && Enabled(s, p, WakeUp) && s.procs[p].call.WriteCall? != byWriter
    requires WakePending(s, byWriter)
    ensures WakePending(Next(s, p, WakeUp), byWriter)
  {
    var t := Next(s, p, WakeUp);
    var q :| q in s.procs && s.procs[q].pc.Waking? && s.procs[q].call.WriteCall? == byWriter;
    assert q in t.procs && t.procs[q] == s.procs[q];
  }

  lemma WakeUpKeepsInv(s: State, p: nat)
    requires Inv(s) && Enabled(s, p, WakeUp)
    ensures Inv(Next(s, p, WakeUp))
  {
    var byWriter, t := s.procs[p].call.WriteCall?, Next(s, p, WakeUp);
    if WakePending(s, !byWriter) { WakeUpKeepsPending(s, p, !byWriter); }
    forall q | q in t.procs
      ensures byWriter || !WakePending(s, true) ==> InqSafe(t, t.procs[q])
      ensures !byWriter || !WakePending(s, false) ==> OutqSafe(t, t.procs[q])
    {
      WokenIsSafe(s, t, s.procs[q]);
    }
  }

  // Steps that only move one process along.
  predicate Local(l: Label) {
    !l.Section? && !l.FaultingSection? && !l.WakeUp?
  }

  lemma LocalInq(s: State, p: nat, l: Label)
    requires WellTyped(s) && Enabled(s, p, l) && Local(l) && (p in s.procs ==> InqSafe(s, s.procs[p]))
    ensures p in Next(s, p, l).procs ==> InqSafe(Next(s, p, l), Next(s, p, l).procs[p])
  {
  }

  lemma LocalOutq(s: State, p: nat, l: Label)
    requires WellTyped(s) && Enabled(s, p, l) && Local(l) && (p in s.procs ==> OutqSafe(s, s.procs[p]))
    ensures p in Next(s, p, l).procs ==> OutqSafe(Next(s, p, l), Next(s, p, l).procs[p])
  {
    if l.Subtract? && FreeAgain(|s.ring.buf|, s.ring.rp, s.ring.wp) == 0 { AgainMeansFull(s.ring); }
  }

  lemma LocalStepKeepsTypes(s: State, p: nat, l: Label)
    requires WellTyped(s) && Enabled(s, p, l) && Local(l)
    ensures var t := Next(s, p, l); WellTyped(t) && OnlyMoves(s, t, p) && t == s.(procs := t.procs)
  {
  }

  lemma LocalStepKeepsInv(s: State, p: nat, l: Label)
    requires Inv(s) && Enabled(s, p, l) && Local(l)
    ensures Inv(Next(s, p, l))
  {
    LocalStepKeepsTypes(s, p, l);
    if p in s.procs ==> InqSafe(s, s.procs[p]) { LocalInq(s, p, l); }
    if p in s.procs ==> OutqSafe(s, s.procs[p]) { LocalOutq(s, p, l); }
    StillSafe(s, Next(s, p, l), p);
  }

  lemma StepKeepsInv(s: State, p: nat, l: Label)
    requires Inv(s) && Enabled(s, p, l)
    ensures Inv(Next(s, p, l))
  {
    match l
    case Section =>
      if s.procs[p].call.PollCall? || !Ready(s.ring, s.procs[p].call) { WaitKeepsInv(s, p); }
      else if s.procs[p].call.ReadCall? { ReadKeepsInv(s, p); }
      else { WriteKeepsInv(s, p); }
    case FaultingSection(left) => FaultKeepsInv(s, p, left);
    case WakeUp => WakeUpKeepsInv(s, p);
    case _ => LocalStepKeepsInv(s, p, l);
  }

  // --- What a section moves ---

  // Without a word on how it is computed: a read with something to read delivers the front
  // of the stream, all of it, all it was asked for, or up to the end of the buffer.
  lemma ReadDelivers(s: State, p: nat, count: nat, nonblock: bool, t: State)
    requires WellTyped(s) && Enabled(s, p, Section) && s.procs[p].call == ReadCall(count, nonblock)
    requires s.ring.rp != s.ring.wp && t == Next(s, p, Section)
    ensures t.ring.Valid() && p in t.procs && t.procs[p].pc.Waking? && t.accepted == s.accepted
    ensures s.delivered <= t.delivered && |t.delivered| <= |s.delivered| + count
    ensures count > 0 ==> |t.delivered| > |s.delivered|
    ensures t.delivered + t.ring.Contents() == s.delivered + s.ring.Contents()
    ensures |t.delivered| == |s.delivered| + count || t.ring.rp == 0 || t.ring.rp == t.ring.wp
  {
    var n := ReadCount(s.ring, count);
    ReadSection(s, p, n);
    TakeMovesBytes(s.delivered, s.ring, n);
    RoomIsPositive(s.ring);
    SpaceFreeCountsSlots(s.ring);
    SpaceFreeCountsSlots(s.ring.Take(n));
    assert t == RunSection(s, p);
  }

  // A write with room stores and appends a prefix of its data: all of it, as much as
  // fills the ring, or up to the end of the buffer.
  lemma WriteAccepts(s: State, p: nat, data: seq<byte>, nonblock: bool, t: State) returns (n: nat)
    requires WellTyped(s) && Enabled(s, p, Section) && s.procs[p].call == WriteCall(data, nonblock)
    requires |s.ring.Contents()| < |s.ring.buf| - 1 && t == Next(s, p, Section)
    ensures t.ring.Valid() && p in t.procs && t.procs[p].pc.Waking? && t.delivered == s.delivered
    ensures n <= |data| && (data != [] ==> n > 0)
    ensures t.accepted == s.accepted + data[..n] && t.ring.Contents() == s.ring.Contents() + data[..n]
    ensures n == |data| || t.ring.wp == 0 || |t.ring.Contents()| == |t.ring.buf| - 1
  {
    SpaceFreeCountsSlots(s.ring);
    RoomIsPositive(s.ring);
    n := WriteCount(s.ring, data);
    WriteSection(s, p, data[..n]);
    PutAppends(s.ring, data[..n]);
    assert t == RunSection(s, p);
  }

  // Otherwise it waits, or does not if it asked not to.
  lemma SectionWaits(s: State, p: nat)
    requires WellTyped(s) && Enabled(s, p, Section)
    requires match s.procs[p].call
             case ReadCall(_, _) => s.ring.Contents() == []
             case WriteCall(_, _) => |s.ring.Contents()| == |s.ring.buf| - 1
             case PollCall(_, _) => false
    ensures var t := Next(s, p, Section);
            && t.ring == s.ring && t.accepted == s.accepted && t.delivered == s.delivered
            && (if s.procs[p].call.nonblock then p !in t.procs else t.procs[p].pc.Preparing?)
  {
    SpaceFreeCountsSlots(s.ring);
  }

  // select() returns if anything it asked for is there, and sleeps on the queues otherwise.
  lemma PollSection(s: State, p: nat, wantIn: bool, wantOut: bool)
    requires WellTyped(s) && Enabled(s, p, Section) && s.procs[p].call == PollCall(wantIn, wantOut)
    ensures var t := Next(s, p, Section);
            && t.ring == s.ring && t.accepted == s.accepted && t.delivered == s.delivered
            && if (wantIn && s.ring.Contents() != []) || (wantOut && |s.ring.Contents()| < |s.ring.buf| - 1)
               then p !in t.procs else p in t.procs && t.procs[p].pc == Asleep(false)
  {
    SpaceFreeCountsSlots(s.ring);
    RoomIsPositive(s.ring);
  }

  // Nobody stands still who is not asleep, or who has been woken.
  lemma OnlySleepersStandStill(s: State, p: nat, call: Call)
    requires WellTyped(s)
    ensures p !in s.procs ==> Enabled(s, p, Enter(call))
    ensures p in s.procs ==>
              match s.procs[p].pc
              case Entering => Enabled(s, p, Section)
              case Preparing => Enabled(s, p, Prepare) && (s.procs[p].call.ReadCall? ==> Enabled(s, p, Recheck))
              case Queued(_) => s.procs[p].call.PollCall? || (Enabled(s, p, LoadRp) && Enabled(s, p, LoadWp))
              case SawRp(_, _) => Enabled(s, p, Compare)
              case SawWp(_, _) => Enabled(s, p, Compare)
              case Differed(_) => Enabled(s, p, LoadRpAgain) && Enabled(s, p, LoadWpAgain)
              case SawRpAgain(_, _) => Enabled(s, p, Subtract)
              case SawWpAgain(_, _) => Enabled(s, p, Subtract)
              case Asleep(woken) => Enabled(s, p, Signal) && (woken ==> Enabled(s, p, Resume))
              case Waking => Enabled(s, p, WakeUp)
  {
  }

  // --- The pipe takes the machine's steps ---

  ghost predicate Shows(d: Pipe, ring: Ring)
    reads d, d.buffer
  {
    d.Valid() && d.Value() == ring
  }

  // The bytes before what a take leaves are those it takes.
  lemma SlicesAgree(bytes: seq<byte>, r: Ring, n: nat)
    requires r.Valid() && |bytes| == n <= r.ReadRoom() && r.Take(n).Valid()
    requires r.Contents() == bytes + r.Take(n).Contents()
    ensures bytes == r.buf[r.rp..r.rp + n]
  {
    TakeDropsOldest(r, n);
    var first := r.buf[r.rp..r.rp + n];
    assert (bytes + r.Take(n).Contents())[..n] == bytes;
    assert (first + r.Take(n).Contents())[..n] == first;
  }

  method ReadStep(d: Pipe, ghost s: State, p: nat, count: nat, nonblock: bool) returns (r: ReadResult)
    requires WellTyped(s) && Shows(d, s.ring) && Enabled(s, p, Section) && s.procs[p].call == ReadCall(count, nonblock)
    modifies d`rp
    ensures Shows(d, Next(s, p, Section).ring) && !r.ReadFault?
    ensures r.Delivered? <==> s.ring.rp != s.ring.wp
    ensures var t := Next(s, p, Section);
            t.accepted == s.accepted && t.delivered == if r.Delivered? then s.delivered + r.bytes else s.delivered
  {
    SpaceFreeCountsSlots(s.ring);
    r := d.Read(count, false);
    if r.Delivered? {
      ReadSection(s, p, |r.bytes|);
      SlicesAgree(r.bytes, s.ring, |r.bytes|);
    }
  }

  method WriteStep(d: Pipe, ghost s: State, p: nat, data: seq<byte>, nonblock: bool) returns (r: WriteResult)
    requires WellTyped(s) && Shows(d, s.ring) && Enabled(s, p, Section) && s.procs[p].call == WriteCall(data, nonblock)
    modifies d`wp, d.buffer
    ensures Shows(d, Next(s, p, Section).ring) && !r.WriteFault?
    ensures r.Accepted? <==> |s.ring.Contents()| < |s.ring.buf| - 1
    ensures r.Accepted? ==> r.count <= |data|
    ensures var t := Next(s, p, Section);
            t.delivered == s.delivered
            && t.accepted == if r.Accepted? then s.accepted + data[..r.count] else s.accepted
  {
    SpaceFreeCountsSlots(s.ring);
    RoomIsPositive(s.ring);
    r := d.Write(data, None);
    if r.Accepted? {
      WriteSection(s, p, data[..r.count]);
    }
  }

  // --- Whole runs ---

  ghost predicate Init(s: State) {
    0 < |s.ring.buf| && s.ring.rp == s.ring.wp == 0 && s.procs == map[] && s.accepted == s.delivered == []
  }

  // `t` is reached from `s` by the steps `run`, each made by the process named with it.
  ghost predicate Reaches(s: State, run: seq<(nat, Label)>, t: State)
    decreases |run|
  {
    if run == [] then s == t else
    && WellTyped(s)
    && Enabled(s, run[0].0, run[0].1)
    && Reaches(Next(s, run[0].0, run[0].1), run[1..], t)
  }

  lemma {:induction false} RunKeepsInv(s: State, run: seq<(nat, Label)>, t: State)
    requires Inv(s) && Reaches(s, run, t)
    ensures Inv(t) && |t.ring.buf| == |s.ring.buf|
    decreases |run|
  {
    if run != [] {
      StepKeepsInv(s, run[0].0, run[0].1);
      RunKeepsInv(Next(s, run[0].0, run[0].1), run[1..], t);
    }
  }

  // The pipe is a first-in first-out byte stream over every run, and a full buffer is
  // never taken for an empty one.
  lemma PipeIsFifo(s: State, run: seq<(nat, Label)>, t: State)
    requires Init(s) && Reaches(s, run, t)
    ensures t.ring.Valid()
    ensures t.delivered + t.ring.Contents() == t.accepted
    ensures |t.ring.Contents()| <= |t.ring.buf| - 1
    ensures t.delivered == t.accepted <==> t.ring.rp == t.ring.wp
  {
    RunKeepsInv(s, run, t);
    SpaceFreeCountsSlots(t.ring);
    RoomIsPositive(t.ring);
    assert |t.delivered| + |t.ring.Contents()| == |t.accepted|;
  }

  predicate Stuck(pr: Process) {
    pr.pc == Asleep(false)
  }

  // No wake-up is lost: a process that stays asleep waits for something that is not
  // there, or a process on the other side is about to wake it.
  lemma SleepersAreNotStranded(s: State, run: seq<(nat, Label)>, t: State, p: nat)
    requires Init(s) && Reaches(s, run, t) && p in t.procs && Stuck(t.procs[p])
    ensures t.ring.Valid()
    ensures t.procs[p].call.OnInq() ==> t.ring.Contents() == [] || WakePending(t, true)
    ensures t.procs[p].call.OnOutq() ==> |t.ring.Contents()| == |t.ring.buf| - 1 || WakePending(t, false)
  {
    RunKeepsInv(s, run, t);
    SpaceFreeCountsSlots(t.ring);
    if t.procs[p].call.OnInq() && !WakePending(t, true) {
      assert InqSafe(t, t.procs[p]);
    }
    if t.procs[p].call.OnOutq() && !WakePending(t, false) {
      assert OutqSafe(t, t.procs[p]);
    }
  }

  // With room for at least one byte, a reader and a writer never sleep together unless
  // some process is about to wake one of them.
  lemma NoDeadlock(s: State, run: seq<(nat, Label)>, t: State, reader: nat, writer: nat)
    requires Init(s) && |s.ring.buf| >= 2 && Reaches(s, run, t)
    requires reader in t.procs && t.procs[reader].call.ReadCall? && Stuck(t.procs[reader])
    requires writer in t.procs && t.procs[writer].call.WriteCall? && Stuck(t.procs[writer])
    ensures WakePending(t, true) || WakePending(t, false)
  {
    RunKeepsInv(s, run, t);
    SleepersAreNotStranded(s, run, t, reader);
    SleepersAreNotStranded(s, run, t, writer);
  }

  // --- A buffer of one byte ---

  predicate Inert(pc: Pc) {
    !pc.Waking? && (pc.Entering? || pc.Preparing? || !pc.woken)
  }

  // It has no room for anything: nothing is accepted, nobody gets to a wake-up.
  ghost predicate Dead(s: State) {
    && WellTyped(s) && |s.ring.buf| == 1 && s.accepted == s.delivered == []
    && forall p :: p in s.procs ==> Inert(s.procs[p].pc)
  }

  predicate BySignal(l: Label) {
    l.Signal? || l.Retest?
  }

  lemma StepStaysDead(s: State, p: nat, l: Label)
    requires Dead(s) && Enabled(s, p, l)
    ensures Dead(Next(s, p, l))
    ensures forall q :: q in s.procs && Stuck(s.procs[q]) && (q != p || !BySignal(l)) ==>
              q in Next(s, p, l).procs && Stuck(Next(s, p, l).procs[q])
  {
  }

  // Whoever falls asleep on it stays asleep until a signal comes, in every run.
  lemma {:induction false} OneByteBufferIsDead(s: State, run: seq<(nat, Label)>, t: State)
    requires Dead(s) && Reaches(s, run, t)
    ensures Dead(t)
    ensures forall q :: q in s.procs && Stuck(s.procs[q]) && (q, Signal) !in run && (q, Retest) !in run ==>
              q in t.procs && Stuck(t.procs[q])
    decreases |run|
  {
    if run != [] {
      var (p, l) := run[0];
      StepStaysDead(s, p, l);
      OneByteBufferIsDead(Next(s, p, l), run[1..], t);
      assert run[0] in run;
    }
  }

  function SleepRun(p: nat, call: Call): seq<(nat, Label)> {
    [(p, Enter(call)), (p, Section), (p, Prepare), (p, LoadRp), (p, Compare)]
  }

  // A process on its way to sleep, with nothing changing around it.
  ghost function With(s: State, p: nat, call: Call, pc: Pc): State {
    s.(procs := s.procs[p := Process(call, pc)])
  }

  lemma Stepping(s: State, p: nat, l: Label, rest: seq<(nat, Label)>, t: State)
    requires WellTyped(s) && Enabled(s, p, l) && Reaches(Next(s, p, l), rest, t)
    ensures Reaches(s, [(p, l)] + rest, t)
  {
    assert ([(p, l)] + rest)[1..] == rest;
  }

  lemma FallsAsleep(s: State, p: nat, call: Call)
    requires WellTyped(s) && |s.ring.buf| == 1 && !call.PollCall?
    ensures Reaches(With(s, p, call, Queued(false)), [(p, LoadRp), (p, Compare)], With(s, p, call, Asleep(false)))
  {
    var q, r := With(s, p, call, Queued(false)), With(s, p, call, SawRp(s.ring.rp, false));
    var t := With(s, p, call, Asleep(false));
    assert Next(r, p, Compare) == t;
    Stepping(r, p, Compare, [], t);
    assert Next(q, p, LoadRp) == r;
    Stepping(q, p, LoadRp, [(p, Compare)], t);
  }

  lemma GoesToSleep(s: State, p: nat, call: Call)
    requires WellTyped(s) && |s.ring.buf| == 1 && p !in s.procs && !call.PollCall? && !call.nonblock
    ensures Reaches(s, SleepRun(p, call), With(s, p, call, Asleep(false)))
  {
    var t := With(s, p, call, Asleep(false));
    FallsAsleep(s, p, call);
    assert Next(With(s, p, call, Preparing), p, Prepare) == With(s, p, call, Queued(false));
    Stepping(With(s, p, call, Preparing), p, Prepare, [(p, LoadRp), (p, Compare)], t);
    assert Next(With(s, p, call, Entering), p, Section) == With(s, p, call, Preparing);
    Stepping(With(s, p, call, Entering), p, Section, [(p, Prepare), (p, LoadRp), (p, Compare)], t);
    Stepping(s, p, Enter(call), [(p, Section), (p, Prepare), (p, LoadRp), (p, Compare)], t);
  }

  lemma {:induction false} ReachesConcat(s: State, a: seq<(nat, Label)>, t: State, b: seq<(nat, Label)>, u: State)
    requires Reaches(s, a, t) && Reaches(t, b, u)
    ensures Reaches(s, a + b, u)
    decreases |a|
  {
    if a == [] {
      assert a + b == b;
    } else {
      ReachesConcat(Next(s, a[0].0, a[0].1), a[1..], t, b, u);
      assert (a + b)[1..] == a[1..] + b;
    }
  }

  // So a reader and a writer can put each other to sleep, and stay so for good.
  lemma OneByteBufferDeadlocks(s: State, x: byte) returns (run: seq<(nat, Label)>, t: State)
    requires Init(s) && |s.ring.buf| == 1
    ensures Dead(s) && Reaches(s, run, t) && Dead(t) && t.procs.Keys == {0, 1}
    ensures t.procs[0] == Process(ReadCall(1, false), Asleep(false))
    ensures t.procs[1] == Process(WriteCall([x], false), Asleep(false))
  {
    var r, w := ReadCall(1, false), WriteCall([x], false);
    var u := With(s, 0, r, Asleep(false));
    t := With(u, 1, w, Asleep(false));
    GoesToSleep(s, 0, r);
    GoesToSleep(u, 1, w);
    run := SleepRun(0, r) + SleepRun(1, w);
    ReachesConcat(s, SleepRun(0, r), u, SleepRun(1, w), t);
    OneByteBufferIsDead(s, run, t);
  }

  // --- Callers that ask not to wait ---

  ghost predicate NobodyWaitsAgainstItsWill(s: State) {
    forall p :: p in s.procs && !s.procs[p].call.PollCall? && s.procs[p].call.nonblock ==>
      s.procs[p].pc.Entering? || s.procs[p].pc.Waking?
  }

  lemma StepWaitsForNobody(s: State, p: nat, l: Label)
    requires WellTyped(s) && Enabled(s, p, l) && NobodyWaitsAgainstItsWill(s)
    ensures NobodyWaitsAgainstItsWill(Next(s, p, l))
  {
  }

  lemma {:induction false} NonblockingNeverWaits(s: State, run: seq<(nat, Label)>, t: State)
    requires Reaches(s, run, t) && NobodyWaitsAgainstItsWill(s)
    ensures NobodyWaitsAgainstItsWill(t)
    decreases |run|
  {
    if run != [] {
      StepWaitsForNobody(s, run[0].0, run[0].1);
      NonblockingNeverWaits(Next(s, run[0].0, run[0].1), run[1..], t);
    }
  }

  // --- The test without the semaphore ---

  // Undisturbed, it sends a reader to sleep exactly on an empty pipe, a writer on a full one.
  lemma ReaderSleepsOnEmpty(s: State, p: nat)
    requires WellTyped(s) && p in s.procs && s.procs[p].pc.Queued? && s.procs[p].call.ReadCall?
    ensures var t := Next(s, p, LoadRp);
            && WellTyped(t) && Enabled(t, p, Compare)
            && Next(t, p, Compare).procs[p].pc ==
               if s.ring.Contents() == [] then Asleep(s.procs[p].pc.woken) else Entering
  {
    SpaceFreeCountsSlots(s.ring);
  }

  lemma WriterSleepsOnFull(s: State, p: nat)
    requires WellTyped(s) && p in s.procs && s.procs[p].pc.Queued? && s.procs[p].call.WriteCall?
    ensures var t := Next(s, p, LoadRp);
            && WellTyped(t) && Enabled(t, p, Compare)
            && var u := Next(t, p, Compare);
               if u.procs[p].pc.Differed? then
                 && WellTyped(u) && Enabled(u, p, LoadRpAgain)
                 && var v := Next(u, p, LoadRpAgain);
                    && WellTyped(v) && Enabled(v, p, Subtract)
                    && Next(v, p, Subtract).procs[p].pc ==
                       if |s.ring.Contents()| == |s.ring.buf| - 1 then Asleep(s.procs[p].pc.woken) else Entering
               else
                 u.procs[p].pc ==
                   if |s.ring.Contents()| == |s.ring.buf| - 1 then Asleep(s.procs[p].pc.woken) else Entering
  {
    SpaceFreeCountsSlots(s.ring);
  }
}
