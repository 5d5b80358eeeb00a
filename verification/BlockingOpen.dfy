// The scull device that is opened by one user at a time, with other users waiting for the
// last close (ldd/scull/access.c). Any number of processes; the tests made without the
// spinlock load the count and the owner separately.
module BlockingOpen {
  // The credentials scull_w_available looks at.
  datatype Cred = Cred(uid: nat, euid: nat, override: bool)

  predicate Admits(owner: nat, c: Cred) {
    owner == c.uid || owner == c.euid || c.override
  }

  predicate Available(count: int, owner: nat, c: Cred) {
    count == 0 || Admits(owner, c)
  }

  // Count and owner after the device has been opened.
  function Entered(count: int, owner: nat, c: Cred): (int, nat) {
    (count + 1, if count == 0 then c.uid else owner)
  }

  // The two locked sections, in the driver's form.
  class Device {
    var count: nat
    var owner: nat

    constructor ()
      ensures count == 0 && owner == 0
    {
      count, owner := 0, 0;
    }

    // One turn of scull_w_open under the lock: false means the caller has to wait.
    method TryOpen(c: Cred) returns (ok: bool)
      modifies this
      ensures ok <==> old(count) == 0 || old(owner) == c.uid || old(owner) == c.euid || c.override
      ensures ok ==> count == old(count) + 1
      ensures ok ==> owner == if old(count) == 0 then c.uid else old(owner)
      ensures !ok ==> count == old(count) && owner == old(owner)
    {
      if !(count == 0 || owner == c.uid || owner == c.euid || c.override) {
        return false;
      }
      if count == 0 {
        owner := c.uid;
      }
      count := count + 1;
      ok := true;
    }

    // scull_w_release under the lock: the result says whether the waiters are to be woken.
    method Release() returns (last: bool)
      requires count > 0
      modifies this`count
      ensures count == old(count) - 1 && (last <==> count == 0)
    {
      count := count - 1;
      var temp := count;
      last := temp == 0;
    }
  }

  datatype Pc =
    | Opening                        // about to take the lock
    | Preparing                      // lock released, not on the queue yet
    | Queued(woken: bool)
    | SawCount(woken: bool)          // found the count non-zero
    | SawOwner(woken: bool)          // and the owner another user
    | Asleep(woken: bool)
    | Opened
    | Closed(last: bool)             // count decremented, wake-up to come if last

  datatype Process = Process(cred: Cred, nonblock: bool, pc: Pc) {
    function Wake(): Process {
      match pc
      case Queued(_) => this.(pc := Queued(true))
      case SawCount(_) => this.(pc := SawCount(true))
      case SawOwner(_) => this.(pc := SawOwner(true))
      case Asleep(_) => this.(pc := Asleep(true))
      case _ => this
    }
  }

  datatype State = State(count: int, owner: nat, procs: map<nat, Process>)

  datatype Label =
    | Enter(cred: Cred, nonblock: bool)
    | TryOpen | Recheck | Prepare | LoadCount | LoadOwner | LoadOwnerAgain | Resume
    | Retest         // a signal, on which wait_event tests once more before it gives up
    | Signal
    | Close | WakeUp

  predicate Enabled(s: State, p: nat, l: Label) {
    if l.Enter? then p !in s.procs else
    p in s.procs &&
    match l
    case Enter(_, _) => false
    case TryOpen => s.procs[p].pc.Opening?
    case Recheck => s.procs[p].pc.Preparing?
    case Prepare => s.procs[p].pc.Preparing?
    case LoadCount => s.procs[p].pc.Queued?
    case LoadOwner => s.procs[p].pc.SawCount?
    case LoadOwnerAgain => s.procs[p].pc.SawOwner?
    case Resume => s.procs[p].pc.Asleep? && s.procs[p].pc.woken
    case Retest => s.procs[p].pc.Asleep?
    case Signal => s.procs[p].pc.Asleep? || s.procs[p].pc.Queued?
    case Close => s.procs[p].pc.Opened?
    case WakeUp => s.procs[p].pc.Closed?
  }

  function Moved(s: State, p: nat, pc: Pc): State
    requires p in s.procs
  {
    s.(procs := s.procs[p := s.procs[p].(pc := pc)])
  }

  function WakeAll(procs: map<nat, Process>): map<nat, Process> {
    map q | q in procs :: procs[q].Wake()
  }

  function Next(s: State, p: nat, l: Label): State
    requires Enabled(s, p, l)
  {
    if l.Enter? then s.(procs := s.procs[p := Process(l.cred, l.nonblock, Opening)]) else
    var pr := s.procs[p];
    match l
    case Enter(_, _) => s
    case TryOpen =>
      if Available(s.count, s.owner, pr.cred) then
        var (count, owner) := Entered(s.count, s.owner, pr.cred);
        Moved(s, p, Opened).(count := count, owner := owner)
      else if pr.nonblock then s.(procs := s.procs - {p})
      else Moved(s, p, Preparing)
    case Recheck => Moved(s, p, Opening)
    case Prepare => Moved(s, p, Queued(false))
    case LoadCount => Moved(s, p, if s.count == 0 then Opening else SawCount(pr.pc.woken))
    case LoadOwner => Moved(s, p, if s.owner == pr.cred.uid then Opening else SawOwner(pr.pc.woken))
    case LoadOwnerAgain =>
      Moved(s, p, if s.owner == pr.cred.euid || pr.cred.override then Opening else Asleep(pr.pc.woken))
    case Resume => Moved(s, p, Queued(false))
    case Retest => Moved(s, p, Queued(false))
    case Signal => s.(procs := s.procs - {p})
    case Close => Moved(s, p, Closed(s.count == 1)).(count := s.count - 1)
    case WakeUp =>
      var rest := s.procs - {p};
      s.(procs := if pr.pc.last then WakeAll(rest) else rest)
  }

  // --- Invariants ---

  ghost function Holders(s: State): set<nat> {
    set p | p in s.procs && s.procs[p].pc.Opened?
  }

  ghost predicate WakePending(s: State) {
    exists q :: q in s.procs && s.procs[q].pc == Closed(true)
  }

  ghost predicate WaiterOk(s: State, pr: Process) {
    match pr.pc
    case SawCount(false) => s.count > 0
    case SawOwner(false) => s.count > 0 && s.owner != pr.cred.uid
    case Asleep(false) => !Available(s.count, s.owner, pr.cred)
    case _ => true
  }

  ghost predicate Inv(s: State) {
    && s.count == |Holders(s)|
    && (forall p :: p in Holders(s) ==> Admits(s.owner, s.procs[p].cred))
    && (!WakePending(s) ==> forall p :: p in s.procs ==> WaiterOk(s, s.procs[p]))
  }

  lemma PendingKept(s: State, t: State, p: nat)
    requires forall q :: q in s.procs && q != p ==> q in t.procs && t.procs[q] == s.procs[q]
    requires p in s.procs ==> !s.procs[p].pc.Closed?
    requires WakePending(s)
    ensures WakePending(t)
  {
    var q :| q in s.procs && s.procs[q].pc == Closed(true);
    assert q in t.procs && t.procs[q] == s.procs[q];
  }

  lemma OpenKeepsInv(s: State, p: nat)
    requires Inv(s) && Enabled(s, p, TryOpen) && Available(s.count, s.owner, s.procs[p].cred)
    ensures Inv(Next(s, p, TryOpen))
  {
    var t := Next(s, p, TryOpen);
    assert Holders(t) == Holders(s) + {p};
    if s.count == 0 { assert Holders(s) == {}; }
    if WakePending(s) { PendingKept(s, t, p); }
  }

  lemma CloseKeepsInv(s: State, p: nat)
    requires Inv(s) && Enabled(s, p, Close)
    ensures Inv(Next(s, p, Close))
  {
    var t := Next(s, p, Close);
    assert Holders(t) == Holders(s) - {p};
    if WakePending(s) { PendingKept(s, t, p); }
    if s.count == 1 { assert t.procs[p].pc == Closed(true); }
  }

  lemma WakeKeepsInv(s: State, p: nat)
    requires Inv(s) && Enabled(s, p, WakeUp)
    ensures Inv(Next(s, p, WakeUp))
  {
    var t := Next(s, p, WakeUp);
    assert Holders(t) == Holders(s);
    if !s.procs[p].pc.last && WakePending(s) {
      var q :| q in s.procs && s.procs[q].pc == Closed(true);
      assert q in t.procs && t.procs[q] == s.procs[q];
    }
  }

  lemma WaitKeepsInv(s: State, p: nat, l: Label)
    requires Inv(s) && Enabled(s, p, l) && !l.Close? && !l.WakeUp?
    requires l.TryOpen? ==> !Available(s.count, s.owner, s.procs[p].cred)
    ensures Inv(Next(s, p, l))
  {
    var t := Next(s, p, l);
    assert Holders(t) == Holders(s);
    if WakePending(s) { PendingKept(s, t, p); }
  }

  lemma StepKeepsInv(s: State, p: nat, l: Label)
    requires Inv(s) && Enabled(s, p, l)
    ensures Inv(Next(s, p, l))
  {
    match l
    case Close => CloseKeepsInv(s, p);
    case WakeUp => WakeKeepsInv(s, p);
    case TryOpen =>
      if Available(s.count, s.owner, s.procs[p].cred) { OpenKeepsInv(s, p); } else { WaitKeepsInv(s, p, l); }
    case _ => WaitKeepsInv(s, p, l);
  }

  // --- The device takes the machine's steps ---

  ghost predicate Shows(d: Device, s: State)
    reads d
  {
    d.count == s.count && d.owner == s.owner
  }

  method Admission(d: Device, ghost s: State, p: nat, c: Cred) returns (ok: bool)
    requires Shows(d, s) && Enabled(s, p, TryOpen) && s.procs[p].cred == c
    modifies d
    ensures var t := Next(s, p, TryOpen); Shows(d, t) && (ok <==> p in t.procs && t.procs[p].pc.Opened?)
  {
    ok := d.TryOpen(c);
  }

  method Departure(d: Device, ghost s: State, p: nat) returns (last: bool)
    requires Shows(d, s) && Inv(s) && Enabled(s, p, Close)
    modifies d
    ensures var t := Next(s, p, Close); Shows(d, t) && t.procs[p].pc == Closed(last)
  {
    assert p in Holders(s);
    last := d.Release();
  }

  // --- Whole runs ---

  ghost predicate Reaches(s: State, run: seq<(nat, Label)>, t: State)
    decreases |run|
  {
    if run == [] then s == t else
      Enabled(s, run[0].0, run[0].1) && Reaches(Next(s, run[0].0, run[0].1), run[1..], t)
  }

  lemma {:induction false} RunKeepsInv(s: State, run: seq<(nat, Label)>, t: State)
    requires Inv(s) && Reaches(s, run, t)
    ensures Inv(t)
    decreases |run|
  {
    if run != [] {
      StepKeepsInv(s, run[0].0, run[0].1);
      RunKeepsInv(Next(s, run[0].0, run[0].1), run[1..], t);
    }
  }

  // The count is the number of files open, all of them by users the owner admits, and a
  // process that stays asleep is kept out by the owner or about to be woken.
  lemma AccessIsExclusive(s: State, run: seq<(nat, Label)>, t: State)
    requires s == State(0, s.owner, map[]) && Reaches(s, run, t)
    ensures t.count == |Holders(t)|
    ensures forall p :: p in t.procs && t.procs[p].pc.Opened? ==>
              var c := t.procs[p].cred; t.owner == c.uid || t.owner == c.euid || c.override
    ensures forall p :: p in t.procs && t.procs[p].pc == Asleep(false) ==>
              var c := t.procs[p].cred;
              || WakePending(t)
              || (t.count > 0 && t.owner != c.uid && t.owner != c.euid && !c.override)
  {
    assert Holders(s) == {};
    RunKeepsInv(s, run, t);
    forall p | p in t.procs && t.procs[p].pc.Opened? ensures Admits(t.owner, t.procs[p].cred) {
      assert p in Holders(t);
    }
    if !WakePending(t) {
      forall p | p in t.procs && t.procs[p].pc == Asleep(false) ensures !Available(t.count, t.owner, t.procs[p].cred) {
        assert WaiterOk(t, t.procs[p]);
      }
    }
  }

  // The test made without the lock, undisturbed, sends to sleep exactly those who would not
  // be admitted.
  lemma UnlockedTestIsExact(s: State, p: nat)
    requires p in s.procs && s.procs[p].pc.Queued?
    ensures var c, w := s.procs[p].cred, s.procs[p].pc.woken;
            var s1 := Next(s, p, LoadCount);
            if s.count == 0 then s1.procs[p].pc == Opening else
            && Enabled(s1, p, LoadOwner)
            && var s2 := Next(s1, p, LoadOwner);
               if s.owner == c.uid then s2.procs[p].pc == Opening else
               && Enabled(s2, p, LoadOwnerAgain)
               && Next(s2, p, LoadOwnerAgain).procs[p].pc ==
                  if s.owner == c.euid || c.override then Opening else Asleep(w)
  {
  }

  // Nobody stands still who is not asleep, or who has been woken.
  lemma OnlySleepersStandStill(s: State, p: nat, c: Cred, nonblock: bool)
    ensures p !in s.procs ==> Enabled(s, p, Enter(c, nonblock))
    ensures p in s.procs ==>
              match s.procs[p].pc
              case Opening => Enabled(s, p, TryOpen)
              case Preparing => Enabled(s, p, Prepare) && Enabled(s, p, Recheck)
              case Queued(_) => Enabled(s, p, LoadCount)
              case SawCount(_) => Enabled(s, p, LoadOwner)
              case SawOwner(_) => Enabled(s, p, LoadOwnerAgain)
              case Asleep(woken) => Enabled(s, p, Signal) && (woken ==> Enabled(s, p, Resume))
              case Opened => Enabled(s, p, Close)
              case Closed(_) => Enabled(s, p, WakeUp)
  {
  }

  // A caller that asks not to wait never does.
  ghost predicate NobodyWaitsAgainstItsWill(s: State) {
    forall p :: p in s.procs && s.procs[p].nonblock ==>
      s.procs[p].pc.Opening? || s.procs[p].pc.Opened? || s.procs[p].pc.Closed?
  }

  lemma {:induction false} NonblockingNeverWaits(s: State, run: seq<(nat, Label)>, t: State)
    requires Reaches(s, run, t) && NobodyWaitsAgainstItsWill(s)
    ensures NobodyWaitsAgainstItsWill(t)
    decreases |run|
  {
    if run != [] {
      NonblockingNeverWaits(Next(s, run[0].0, run[0].1), run[1..], t);
    }
  }

  // The owner changes only by way of a moment at which nobody has the device open.
  lemma {:induction false} OwnerIsFixedWhileOpen(s: State, run: seq<(nat, Label)>, t: State)
    requires Reaches(s, run, t)
    ensures t.owner == s.owner || exists k, u :: 0 <= k <= |run| && Reaches(s, run[..k], u) && u.count == 0
    decreases |run|
  {
    if s.count == 0 {
      assert Reaches(s, run[..0], s);
    } else if run != [] {
      var next := Next(s, run[0].0, run[0].1);
      OwnerIsFixedWhileOpen(next, run[1..], t);
      if t.owner != next.owner {
        var k, u :| 0 <= k <= |run[1..]| && Reaches(next, run[1..][..k], u) && u.count == 0;
        assert run[..k + 1][1..] == run[1..][..k];
        assert Reaches(s, run[..k + 1], u);
      }
    }
  }
}
