// Interrupt handling in the short driver, whole and split in two halves, with a reader
// that keeps the page from overrunning (ldd/short/short.c). An interrupt may arrive
// between any two records the bottom half prints.
module ShortHalves {
  import opened Common
  import opened ShortText

  // `delivered` and `handled` are the history: bytes read so far, interrupts so far.
  datatype State = State(
    ring: Ring, times: Times, count: nat, scheduled: bool, running: bool,
    delivered: seq<byte>, handled: seq<Timeval>)
  {
    ghost predicate Valid() {
      ring.Valid() && times.Valid()
    }

    // Everything printed so far.
    ghost function Text(): seq<byte>
      requires Valid()
    {
      delivered + ring.Unread()
    }

    ghost predicate HasRoom()
      requires Valid()
    {
      |ring.Unread()| + RECORD < |ring.page|
    }
  }

  datatype Label =
    | Whole(now: Timeval)      // short_interrupt
    | Top(now: Timeval)        // short_wq_interrupt, short_tl_interrupt
    | Start | Print            // short_do_tasklet: up to the header; one turn of the loop
    | Read(n: nat)

  ghost predicate Enabled(s: State, l: Label)
    requires s.Valid()
  {
    match l
    case Whole(_) => s.HasRoom()
    case Top(_) => |s.times.Pending()| + 1 < NR_TIMEVAL
    case Start => s.scheduled && !s.running && s.count < 1_000_000 && s.HasRoom()
    case Print => s.running && s.HasRoom()
    case Read(n) => n <= s.ring.Readable()
  }

  function Next(s: State, l: Label): State
    requires s.Valid()
  {
    PutKeepsValid(s.ring, HeaderRecord(0));
    match l
    case Whole(now) => s.(ring := s.ring.Put(StampRecord(now)), handled := s.handled + [now])
    case Top(now) =>
      s.(times := s.times.Push(now), scheduled := true, count := s.count + 1, handled := s.handled + [now])
    case Start => s.(ring := s.ring.Put(HeaderRecord(s.count)), count := 0, scheduled := false, running := true)
    case Print =>
      var times := s.times.Pop();
      s.(ring := s.ring.Put(StampRecord(s.times.tv[s.times.tail])), times := times, running := times.tail != times.head)
    case Read(n) =>
      if n <= s.ring.Readable() then
        s.(ring := s.ring.Take(n), delivered := s.delivered + s.ring.page[s.ring.tail..s.ring.tail + n])
      else s
  }

  ghost predicate Initial(s: State) {
    && s.Valid() && s.ring.head == s.ring.tail && s.times.head == s.times.tail
    && s.count == 0 && !s.scheduled && !s.running && s.delivered == [] && s.handled == []
  }

  // With room in the page for a record and in the array for a time, nothing stands still.
  lemma DriverCanMove(s: State, now: Timeval, n: nat)
    requires s.Valid()
    ensures |s.ring.Unread()| + RECORD < |s.ring.page| ==>
              && Enabled(s, Whole(now)) && (s.running ==> Enabled(s, Print))
              && (s.scheduled && !s.running && s.count < 1_000_000 ==> Enabled(s, Start))
    ensures |s.times.Pending()| + 1 < NR_TIMEVAL ==> Enabled(s, Top(now))
    ensures n <= s.ring.Readable() ==> Enabled(s, Read(n))
  {
  }

  // --- One step ---

  lemma RecordIsAppended(s: State, record: seq<byte>, t: State)
    requires s.Valid() && s.HasRoom() && |record| == RECORD && s.ring.head + RECORD <= |s.ring.page|
    requires t.ring == s.ring.Put(record) && t.times.Valid() && t.delivered == s.delivered
    ensures t.Valid() && t.Text() == s.Text() + record
    ensures WithoutHeaders(t.Text()) == WithoutHeaders(s.Text()) + if IsHeader(record) then [] else record
  {
    PutAppends(s.ring, record);
    assert t.Text() == s.Text() + record;
    OneMoreRecord(s.Text(), record);
  }

  lemma BytesMove(delivered: seq<byte>, r: Ring, n: nat)
    requires r.Valid() && n <= r.Readable() && r.tail + n <= |r.page| && r.Take(n).Valid()
    ensures delivered + r.Unread() == delivered + r.page[r.tail..r.tail + n] + r.Take(n).Unread()
  {
    var chunk := r.page[r.tail..r.tail + n];
    TakeDropsOldest(r, n);
    assert delivered + chunk + r.Take(n).Unread() == delivered + (chunk + r.Take(n).Unread());
  }

  lemma ReadNext(s: State, n: nat)
    requires s.Valid() && n <= s.ring.Readable()
    ensures s.ring.tail + n <= |s.ring.page|
    ensures Next(s, Read(n)) ==
            s.(ring := s.ring.Take(n), delivered := s.delivered + s.ring.page[s.ring.tail..s.ring.tail + n])
  {
  }

  lemma ReadStep(s: State, n: nat, t: State)
    requires s.Valid() && Enabled(s, Read(n)) && t == Next(s, Read(n))
    ensures t.Valid() && t.times == s.times && t.handled == s.handled && t.Text() == s.Text()
    ensures |t.delivered| == |s.delivered| + n
  {
    ReadNext(s, n);
    TakeDropsOldest(s.ring, n);
    BytesMove(s.delivered, s.ring, n);
  }

  lemma TopStep(s: State, now: Timeval, t: State)
    requires s.Valid() && Enabled(s, Top(now)) && t == Next(s, Top(now))
    ensures t.Valid() && t.ring == s.ring && t.delivered == s.delivered
    ensures t.times.Pending() == s.times.Pending() + [now]
  {
    PushAppends(s.times, now);
  }

  lemma StartStep(s: State, t: State)
    requires s.Valid() && Enabled(s, Start) && t == Next(s, Start)
    ensures t.Valid() && t.times == s.times && t.handled == s.handled
    ensures t.Text() == s.Text() + HeaderRecord(s.count)
    ensures WithoutHeaders(t.Text()) == WithoutHeaders(s.Text())
  {
    PutKeepsValid(s.ring, HeaderRecord(s.count));
    RecordIsAppended(s, HeaderRecord(s.count), t);
  }

  // The loop of the bottom half prints before it tests.
  function LapsBy(s: State, l: Label): nat {
    if l.Print? && s.times.tail == s.times.head then 1 else 0
  }

  lemma PrintStep(s: State, stamp: Timeval, t: State)
    requires s.Valid() && Enabled(s, Print) && t == Next(s, Print) && stamp == s.times.tv[s.times.tail]
    ensures t.Valid() && t.handled == s.handled
    ensures t.Text() == s.Text() + StampRecord(stamp)
    ensures WithoutHeaders(t.Text()) == WithoutHeaders(s.Text()) + StampRecord(stamp)
    ensures LapsBy(s, Print) == 0 ==> s.times.Pending() == [stamp] + t.times.Pending()
    ensures LapsBy(s, Print) == 1 ==> s.times.Pending() == [] && |t.times.Pending()| == NR_TIMEVAL - 1
    ensures LapsBy(s, Print) == 0 <==> s.times.Pending() != []
    ensures t.running <==> t.times.Pending() != []
  {
    PutKeepsValid(s.ring, StampRecord(stamp));
    PopDropsOldest(s.times);
    RecordIsAppended(s, StampRecord(stamp), t);
  }

  lemma WholeStep(s: State, now: Timeval, t: State)
    requires s.Valid() && Enabled(s, Whole(now)) && t == Next(s, Whole(now))
    ensures t.Valid() && t.times == s.times
    ensures WithoutHeaders(t.Text()) == WithoutHeaders(s.Text()) + StampRecord(now)
  {
    PutKeepsValid(s.ring, StampRecord(now));
    RecordIsAppended(s, StampRecord(now), t);
  }

  // --- The account of the stamps ---

  // The stamps printed and the times pending account for the interrupts handled, with a
  // full turn of the array too many for each of `laps`.
  ghost predicate Balance(stamped: seq<byte>, pending: seq<Timeval>, handled: seq<Timeval>, laps: nat) {
    && |stamped| + RECORD * |pending| == RECORD * (|handled| + NR_TIMEVAL * laps)
    && (laps == 0 ==> stamped + Stamps(pending) == Stamps(handled))
  }

  lemma StampsOneMore(times: seq<Timeval>, now: Timeval)
    ensures Stamps(times + [now]) == Stamps(times) + StampRecord(now)
  {
    assert (times + [now])[..|times|] == times;
  }

  lemma StampsOne(stamp: Timeval)
    ensures Stamps([stamp]) == StampRecord(stamp)
  {
    StampsOneMore([], stamp);
    assert [] + [stamp] == [stamp];
    assert Stamps([]) == [];
  }

  lemma TopBalance(stamped: seq<byte>, pending: seq<Timeval>, handled: seq<Timeval>, laps: nat, now: Timeval)
    requires Balance(stamped, pending, handled, laps)
    ensures Balance(stamped, pending + [now], handled + [now], laps)
  {
    StampsOneMore(pending, now);
    StampsOneMore(handled, now);
    var stamp := StampRecord(now);
    assert stamped + (Stamps(pending) + stamp) == stamped + Stamps(pending) + stamp;
  }

  lemma PrintBalance(stamped: seq<byte>, stamp: Timeval, rest: seq<Timeval>, handled: seq<Timeval>, laps: nat)
    requires Balance(stamped, [stamp] + rest, handled, laps)
    ensures Balance(stamped + StampRecord(stamp), rest, handled, laps)
  {
    StampsConcat([stamp], rest);
    StampsOne(stamp);
    var record := StampRecord(stamp);
    assert stamped + record + Stamps(rest) == stamped + (record + Stamps(rest));
  }

  lemma LapBalance(stamped: seq<byte>, record: seq<byte>, rest: seq<Timeval>, handled: seq<Timeval>, laps: nat)
    requires Balance(stamped, [], handled, laps) && |record| == RECORD && |rest| == NR_TIMEVAL - 1
    ensures Balance(stamped + record, rest, handled, laps + 1)
  {
  }

  lemma WholeBalance(stamped: seq<byte>, handled: seq<Timeval>, now: Timeval)
    requires Balance(stamped, [], handled, 0)
    ensures Balance(stamped + StampRecord(now), [], handled + [now], 0)
  {
    StampsOneMore(handled, now);
    assert Stamps([]) == [];
  }

  ghost predicate Accounted(s: State, laps: nat) {
    s.Valid() && Balance(WithoutHeaders(s.Text()), s.times.Pending(), s.handled, laps)
  }

  lemma PrintAccounted(s: State, laps: nat, t: State)
    requires Accounted(s, laps) && Enabled(s, Print) && t == Next(s, Print)
    ensures Accounted(t, laps + LapsBy(s, Print))
  {
    var stamp := s.times.tv[s.times.tail];
    var stamped := WithoutHeaders(s.Text());
    PrintStep(s, stamp, t);
    if LapsBy(s, Print) == 0 {
      PrintBalance(stamped, stamp, t.times.Pending(), s.handled, laps);
    } else {
      LapBalance(stamped, StampRecord(stamp), t.times.Pending(), s.handled, laps);
    }
  }

  lemma StepAccounted(s: State, l: Label, laps: nat)
    requires Accounted(s, laps) && Enabled(s, l) && !l.Whole?
    ensures Accounted(Next(s, l), laps + LapsBy(s, l))
  {
    match l
    case Whole(now) =>
    case Top(now) =>
      TopStep(s, now, Next(s, l));
      TopBalance(WithoutHeaders(s.Text()), s.times.Pending(), s.handled, laps, now);
    case Start => StartStep(s, Next(s, l));
    case Print => PrintAccounted(s, laps, Next(s, l));
    case Read(n) => ReadStep(s, n, Next(s, l));
  }

  lemma WholeStepAccounted(s: State, l: Label)
    requires Accounted(s, 0) && Enabled(s, l) && (l.Whole? || l.Read?) && s.times.Pending() == []
    ensures Accounted(Next(s, l), 0) && Next(s, l).times == s.times
  {
    match l
    case Whole(now) =>
      WholeStep(s, now, Next(s, l));
      WholeBalance(WithoutHeaders(s.Text()), s.handled, now);
    case Read(n) => ReadStep(s, n, Next(s, l));
  }

  // --- Whole runs ---

  lemma StepKeepsValid(s: State, l: Label)
    requires s.Valid()
    ensures Next(s, l).Valid()
  {
    PutKeepsValid(s.ring, HeaderRecord(0));
    match l
    case Whole(now) => PutKeepsValid(s.ring, StampRecord(now));
    case Top(now) => PushAppends(s.times, now);
    case Start => PutKeepsValid(s.ring, HeaderRecord(s.count));
    case Print =>
      PutKeepsValid(s.ring, StampRecord(s.times.tv[s.times.tail]));
      PopDropsOldest(s.times);
    case Read(n) => if n <= s.ring.Readable() { TakeDropsOldest(s.ring, n); }
  }

  ghost predicate Reaches(s: State, run: seq<Label>, t: State)
    requires s.Valid()
    decreases |run|
  {
    if run == [] then s == t else
      StepKeepsValid(s, run[0]);
      Enabled(s, run[0]) && Reaches(Next(s, run[0]), run[1..], t)
  }

  // How often in a run the bottom half prints with no time pending.
  ghost function Laps(s: State, run: seq<Label>): nat
    requires s.Valid()
    decreases |run|
  {
    if run == [] then 0 else
      StepKeepsValid(s, run[0]);
      LapsBy(s, run[0]) + Laps(Next(s, run[0]), run[1..])
  }

  predicate AllWhole(run: seq<Label>) {
    forall l :: l in run ==> l.Whole? || l.Read?
  }

  predicate NoWhole(run: seq<Label>) {
    forall l :: l in run ==> !l.Whole?
  }

  lemma {:induction false} SplitRunAccounted(s: State, run: seq<Label>, t: State, laps: nat)
    requires Accounted(s, laps) && Reaches(s, run, t) && NoWhole(run)
    ensures Accounted(t, laps + Laps(s, run))
    decreases |run|
  {
    if run != [] {
      assert run[0] in run;
      StepAccounted(s, run[0], laps);
      SplitRunAccounted(Next(s, run[0]), run[1..], t, laps + LapsBy(s, run[0]));
    }
  }

  lemma {:induction false} WholeRunAccounted(s: State, run: seq<Label>, t: State)
    requires Accounted(s, 0) && Reaches(s, run, t) && AllWhole(run) && s.times.Pending() == []
    ensures Accounted(t, 0) && t.times == s.times
    decreases |run|
  {
    if run != [] {
      assert run[0] in run;
      WholeStepAccounted(s, run[0]);
      WholeRunAccounted(Next(s, run[0]), run[1..], t);
    }
  }

  lemma InitiallyAccounted(s: State)
    requires Initial(s)
    ensures Accounted(s, 0)
  {
    assert s.Text() == [];
  }

  // The times of the interrupts in a run.
  function TimesOf(run: seq<Label>): seq<Timeval> {
    if run == [] then [] else
      (if run[0].Whole? || run[0].Top? then [run[0].now] else []) + TimesOf(run[1..])
  }

  lemma StepHandles(s: State, l: Label)
    requires s.Valid()
    ensures Next(s, l).handled == s.handled + if l.Whole? || l.Top? then [l.now] else []
  {
  }

  lemma {:induction false} InterruptsAreHandled(s: State, run: seq<Label>, t: State)
    requires s.Valid() && Reaches(s, run, t)
    ensures t.handled == s.handled + TimesOf(run)
    decreases |run|
  {
    if run != [] {
      StepKeepsValid(s, run[0]);
      var u := Next(s, run[0]);
      InterruptsAreHandled(u, run[1..], t);
      StepHandles(s, run[0]);
      ConcatAssociates(s.handled, if run[0].Whole? || run[0].Top? then [run[0].now] else [], TimesOf(run[1..]));
    }
  }

  // The unsplit handler prints the stamp of each interrupt, in order, nothing else.
  lemma WholeDriverPrintsEveryStamp(s: State, run: seq<Label>, t: State)
    requires Initial(s) && Reaches(s, run, t) && AllWhole(run)
    ensures t.Valid() && WithoutHeaders(t.Text()) == Stamps(TimesOf(run))
  {
    InterruptsAreHandled(s, run, t);
    assert t.handled == TimesOf(run);
    InitiallyAccounted(s);
    WholeRunAccounted(s, run, t);
    assert Stamps(t.times.Pending()) == [];
  }

  // The split driver prints, apart from its headers, the stamps of the interrupts handled
  // and no longer pending, exactly if its bottom half never prints with nothing pending.
  lemma SplitDriverPrintsEveryStamp(s: State, run: seq<Label>, t: State)
    requires Initial(s) && Reaches(s, run, t) && NoWhole(run)
    ensures t.Valid()
    ensures WithoutHeaders(t.Text()) + Stamps(t.times.Pending()) == Stamps(TimesOf(run)) <==> Laps(s, run) == 0
  {
    InterruptsAreHandled(s, run, t);
    assert t.handled == TimesOf(run);
    InitiallyAccounted(s);
    SplitRunAccounted(s, run, t, 0);
  }

  // --- No interrupt while the bottom half runs ---

  // The bottom half as one step, as far as the top half can tell.
  ghost predicate Undisturbed(s: State, run: seq<Label>)
    requires s.Valid()
    decreases |run|
  {
    run == [] || (
      StepKeepsValid(s, run[0]);
      (run[0].Top? ==> !s.running) && Undisturbed(Next(s, run[0]), run[1..]))
  }

  // What the flags and the last header say while no interrupt disturbs the bottom half.
  ghost predicate InStep(pending: nat, running: bool, scheduled: bool, count: nat, owed: Option<nat>) {
    && (running || scheduled <==> pending != 0)
    && (running ==> count == 0 && !scheduled)
    && (!running ==> count == pending)
    && owed == Some(if running then pending else 0)
  }

  ghost predicate Quiet(s: State) {
    s.Valid() && InStep(|s.times.Pending()|, s.running, s.scheduled, s.count, Owed(s.Text()))
  }

  lemma RecordIsOwed(text: seq<byte>, record: seq<byte>, k: nat)
    requires |record| == RECORD && Owed(text) == Some(k)
    ensures IsHeader(record) && k == 0 ==> Owed(text + record) == Some(HeaderCount(record))
    ensures !IsHeader(record) && k > 0 ==> Owed(text + record) == Some(k - 1)
  {
    OneMoreRecord(text, record);
  }

  lemma StartKeepsQuiet(s: State, t: State)
    requires Quiet(s) && Enabled(s, Start) && t == Next(s, Start)
    ensures Quiet(t)
  {
    StartStep(s, t);
    RecordIsOwed(s.Text(), HeaderRecord(s.count), 0);
    HeaderReadsBack(s.count);
  }

  lemma PrintKeepsQuiet(s: State, t: State)
    requires Quiet(s) && Enabled(s, Print) && t == Next(s, Print)
    ensures Quiet(t) && LapsBy(s, Print) == 0
  {
    var stamp := s.times.tv[s.times.tail];
    PrintStep(s, stamp, t);
    var k, record := |s.times.Pending()|, StampRecord(stamp);
    RecordIsOwed(s.Text(), record, k);
    assert |t.times.Pending()| == k - 1;
    assert Owed(t.Text()) == Some(k - 1);
  }

  lemma StepKeepsQuiet(s: State, l: Label)
    requires Quiet(s) && Enabled(s, l) && !l.Whole? && (l.Top? ==> !s.running)
    ensures Quiet(Next(s, l)) && LapsBy(s, l) == 0
  {
    match l
    case Whole(now) =>
    case Top(now) =>
      TopStep(s, now, Next(s, l));
      assert Next(s, l).Text() == s.Text();
    case Start => StartKeepsQuiet(s, Next(s, l));
    case Print => PrintKeepsQuiet(s, Next(s, l));
    case Read(n) => ReadStep(s, n, Next(s, l));
  }

  lemma {:induction false} RunKeepsQuiet(s: State, run: seq<Label>, t: State)
    requires Quiet(s) && Reaches(s, run, t) && NoWhole(run) && Undisturbed(s, run)
    ensures Quiet(t) && Laps(s, run) == 0
    decreases |run|
  {
    if run != [] {
      assert run[0] in run;
      StepKeepsQuiet(s, run[0]);
      assert NoWhole(run[1..]);
      RunKeepsQuiet(Next(s, run[0]), run[1..], t);
    }
  }

  // The two drivers print the same text, header records apart, for the same interrupts;
  // each header says how many stamps follow it.
  lemma HalvesMatchWhole(s: State, run: seq<Label>, t: State, whole: seq<Label>, u: State)
    requires Initial(s) && Reaches(s, run, t) && NoWhole(run) && Undisturbed(s, run)
    requires Reaches(s, whole, u) && AllWhole(whole) && TimesOf(whole) == TimesOf(run)
    ensures t.Valid() && u.Valid()
    ensures WithoutHeaders(t.Text()) + Stamps(t.times.Pending()) == WithoutHeaders(u.Text())
    ensures Owed(t.Text()) == Some(if t.running then |t.times.Pending()| else 0)
    ensures !t.scheduled && !t.running ==> t.times.Pending() == []
  {
    assert s.Text() == [];
    RunKeepsQuiet(s, run, t);
    SplitDriverPrintsEveryStamp(s, run, t);
    WholeDriverPrintsEveryStamp(s, whole, u);
  }

  // --- An interrupt while the bottom half runs ---

  // Indices and flags of a driver nobody has read from yet.
  ghost predicate At(s: State, records: nat, head: nat, tail: nat, scheduled: bool, running: bool, count: nat) {
    && s.Valid() && |s.ring.page| >= 128
    && s.ring.head == RECORD * records && s.ring.tail == 0
    && s.times.head == head && s.times.tail == tail
    && s.scheduled == scheduled && s.running == running && s.count == count
  }

  lemma Stepping(s: State, l: Label, rest: seq<Label>, t: State)
    requires s.Valid() && Enabled(s, l) && Next(s, l).Valid() && Reaches(Next(s, l), rest, t)
    ensures Reaches(s, [l] + rest, t)
    ensures Laps(s, [l] + rest) == LapsBy(s, l) + Laps(Next(s, l), rest)
  {
    assert ([l] + rest)[1..] == rest;
  }

  lemma TopAt(s: State, now: Timeval, records: nat, head: nat, tail: nat, scheduled: bool, running: bool, count: nat)
    requires At(s, records, head, tail, scheduled, running, count) && tail <= head < 5
    ensures Enabled(s, Top(now)) && At(Next(s, Top(now)), records, head + 1, tail, true, running, count + 1)
  {
    StepKeepsValid(s, Top(now));
  }

  lemma StartAt(s: State, records: nat, head: nat, tail: nat, count: nat)
    requires At(s, records, head, tail, true, false, count) && records < 6 && count < 5
    ensures Enabled(s, Start) && At(Next(s, Start), records + 1, head, tail, false, true, 0)
  {
    StepKeepsValid(s, Start);
  }

  lemma PrintAt(s: State, records: nat, head: nat, tail: nat, scheduled: bool, count: nat)
    requires At(s, records, head, tail, scheduled, true, count) && records < 6 && tail < 5
    ensures Enabled(s, Print) && At(Next(s, Print), records + 1, head, tail + 1, scheduled, tail + 1 != head, count)
  {
    StepKeepsValid(s, Print);
  }

  lemma LapAfterTwo(s: State) returns (t: State)
    requires At(s, 1, 2, 0, true, true, 1)
    ensures Reaches(s, [Print, Print, Start, Print], t) && Laps(s, [Print, Print, Start, Print]) == 1
  {
    PrintAt(s, 1, 2, 0, true, 1);
    var s4 := Next(s, Print);
    PrintAt(s4, 2, 2, 1, true, 1);
    var s5 := Next(s4, Print);
    StartAt(s5, 3, 2, 2, 1);
    var s6 := Next(s5, Start);
    PrintAt(s6, 4, 2, 2, false, 0);
    t := Next(s6, Print);
    Stepping(s6, Print, [], t);
    Stepping(s5, Start, [Print], t);
    Stepping(s4, Print, [Start, Print], t);
    Stepping(s, Print, [Print, Start, Print], t);
    assert [Print] + [] == [Print];
    assert [Start] + [Print] == [Start, Print];
    assert [Print] + [Start, Print] == [Print, Start, Print];
    assert [Print] + [Print, Start, Print] == [Print, Print, Start, Print];
  }

  lemma TwoInterrupts(s: State, a: Timeval, b: Timeval) returns (s1: State, s2: State, u: State)
    requires Initial(s) && |s.ring.page| >= 128 && s.ring.head == 0 && s.times.head == 0
    ensures Enabled(s, Top(a)) && s1 == Next(s, Top(a)) && s1.Valid()
    ensures Enabled(s1, Start) && s2 == Next(s1, Start) && s2.Valid()
    ensures Enabled(s2, Top(b)) && u == Next(s2, Top(b)) && At(u, 1, 2, 0, true, true, 1)
  {
    TopAt(s, a, 0, 0, 0, false, false, 0);
    s1 := Next(s, Top(a));
    StartAt(s1, 0, 1, 0, 1);
    s2 := Next(s1, Start);
    TopAt(s2, b, 1, 1, 0, false, true, 0);
    u := Next(s2, Top(b));
  }

  lemma OneLap(s: State, a: Timeval, b: Timeval) returns (run: seq<Label>, t: State)
    requires Initial(s) && |s.ring.page| >= 128 && s.ring.head == 0 && s.times.head == 0
    ensures Reaches(s, run, t) && NoWhole(run) && Laps(s, run) == 1
  {
    var s1, s2, u := TwoInterrupts(s, a, b);
    t := LapAfterTwo(u);
    var rest := [Print, Print, Start, Print];
    Stepping(s2, Top(b), rest, t);
    Stepping(s1, Start, [Top(b)] + rest, t);
    Stepping(s, Top(a), [Start] + ([Top(b)] + rest), t);
    run := [Top(a)] + ([Start] + ([Top(b)] + rest));
  }

  // The bottom half prints the time of an interrupt that comes while it runs; the
  // interrupt has scheduled it again, and the second time it finds nothing pending.
  lemma StaleStampsCanBePrinted(s: State, a: Timeval, b: Timeval) returns (run: seq<Label>, t: State)
    requires Initial(s) && |s.ring.page| >= 128 && s.ring.head == 0 && s.times.head == 0
    ensures Reaches(s, run, t) && NoWhole(run) && t.Valid()
    ensures WithoutHeaders(t.Text()) + Stamps(t.times.Pending()) != Stamps(TimesOf(run))
  {
    run, t := OneLap(s, a, b);
    SplitDriverPrintsEveryStamp(s, run, t);
  }
}
