// The two snull interfaces without the links between packets: the state the operations of
// the driver are specified on, and what they keep (ldd/snull/snull.c).
module SnullBooks {
  import opened Common
  import opened SnullLists
  import opened SnullAccounts

  // struct snull_priv, with the state the kernel keeps for the interface.
  datatype Priv = Priv(
    ppool: Pkt, rxQueue: Pkt,
    rxIntr: bool, txIntr: bool,          // the status word
    rxIntEnabled: bool,
    queueStopped: bool, pollScheduled: bool,
    rxPackets: nat, rxDropped: nat, txPackets: nat)

  const RESET := Priv(NULL, NULL, false, false, true, false, false, 0, 0, 0)

  function Counted(priv: Priv, delivered: bool): Priv {
    if delivered then priv.(rxPackets := priv.rxPackets + 1) else priv.(rxDropped := priv.rxDropped + 1)
  }

  function Top(s: seq<Pkt>): Pkt {
    if s == [] then NULL else s[|s| - 1]
  }

  ghost function FramesOf(data: map<Pkt, seq<byte>>, ps: seq<Pkt>): (fs: seq<seq<byte>>)
    ensures |fs| == |ps|
  {
    seq(|ps|, i requires 0 <= i < |ps| => if ps[i] in data then data[ps[i]] else [])
  }

  // Everything about the pair but the links: what the operations are specified on.
  datatype Books = Books(dev: seq<Priv>, stack: seq<seq<Pkt>>, data: map<Pkt, seq<byte>>,
                         sent: seq<seq<seq<byte>>>, handled: seq<seq<Outcome>>) {
    ghost predicate Sane() {
      && |dev| == |sent| == |handled| == 2 && |stack| == LISTS
      && forall i, h :: 0 <= i < LISTS && 0 <= h < |stack[i]| ==> stack[i][h] in data
    }

    // The frames waiting on a receive queue, bottom first.
    ghost function Waiting(d: nat): seq<seq<byte>>
      requires Sane() && d < 2
    {
      FramesOf(data, stack[Queue(d)])
    }

    // A device's queue is stopped exactly when its pool is empty.
    ghost predicate FlowOk(d: nat)
      requires Sane() && d < 2
    {
      dev[d].queueStopped <==> stack[Pool(d)] == []
    }

    ghost function Side(d: nat): Receiver
      requires Sane() && d < 2
    {
      var p := dev[d];
      Receiver(p.rxIntr || p.txIntr, p.rxIntEnabled, p.pollScheduled, p.rxPackets, p.rxDropped,
                      sent[d], handled[d], Waiting(d))
    }

    function WithDev(d: nat, priv: Priv): Books
      requires d < |dev|
    {
      this.(dev := dev[d := priv])
    }

    // The head of d's receive queue handed up or dropped, its packet back in the peer's pool.
    function Take(d: nat, granted: bool): Books
      requires |dev| == |handled| == 2 && |stack| == LISTS && d < 2 && stack[Queue(d)] != []
      requires stack[Queue(d)][|stack[Queue(d)]| - 1] in data
    {
      var e, q := Peer(d), stack[Queue(d)];
      var p, rest, pool := q[|q| - 1], q[..|q| - 1], stack[Pool(e)];
      this.(stack := stack[Queue(d) := rest][Pool(e) := pool + [p]],
            handled := handled[d := handled[d] + [Outcome(data[p], granted)]],
            dev := dev[d := Counted(dev[d], granted).(rxQueue := Top(rest))]
                      [e := dev[e].(ppool := p, queueStopped := dev[e].queueStopped && pool != [])])
    }

    // A frame moved from d's pool onto the peer's receive queue.
    function Send(d: nat, frame: seq<byte>): Books
      requires |dev| == |sent| == 2 && |stack| == LISTS && d < 2 && stack[Pool(d)] != []
    {
      var e, pool := Peer(d), stack[Pool(d)];
      var p, rest := pool[|pool| - 1], pool[..|pool| - 1];
      this.(stack := stack[Pool(d) := rest][Queue(e) := stack[Queue(e)] + [p]],
            data := data[p := frame],
            sent := sent[e := sent[e] + [frame]],
            dev := dev[d := dev[d].(ppool := Top(rest), queueStopped := dev[d].queueStopped || rest == [])]
                      [e := dev[e].(rxQueue := p)])
    }
  }

  // The interrupt handlers: read and clear the status word, then act on its bits. Only
  // the regular one looks at the queue itself.
  function Interrupted(b: Books, d: nat, napi: bool, granted: bool): Books
    requires |b.dev| == |b.handled| == 2 && |b.stack| == LISTS && d < 2
    requires b.stack[Queue(d)] != [] ==> b.stack[Queue(d)][|b.stack[Queue(d)]| - 1] in b.data
  {
    var was := b.dev[d];
    var priv := was.(rxIntr := false, txIntr := false, txPackets := was.txPackets + if was.txIntr then 1 else 0);
    if !was.rxIntr then b.WithDev(d, priv)
    else if napi then b.WithDev(d, priv.(rxIntEnabled := false, pollScheduled := true))
    else if b.stack[Queue(d)] == [] then b.WithDev(d, priv)
    else b.WithDev(d, priv).Take(d, granted)
  }

  // What a receiver does about a frame just put on its queue.
  function Arrived(b: Books, e: nat, napi: bool, granted: bool): Books
    requires |b.dev| == |b.handled| == 2 && |b.stack| == LISTS && e < 2
    requires b.stack[Queue(e)] != [] ==> b.stack[Queue(e)][|b.stack[Queue(e)]| - 1] in b.data
  {
    if b.dev[e].rxIntEnabled then Interrupted(b.WithDev(e, b.dev[e].(rxIntr := true)), e, napi, granted) else b
  }

  lemma SendIsSane(b: Books, d: nat, frame: seq<byte>)
    requires b.Sane() && d < 2 && b.stack[Pool(d)] != []
    ensures b.Send(d, frame).Sane()
  {
  }

  lemma TakeIsSane(b: Books, d: nat, granted: bool)
    requires b.Sane() && d < 2 && b.stack[Queue(d)] != []
    ensures b.Take(d, granted).Sane()
  {
  }

  lemma ArrivedIsSane(b: Books, e: nat, napi: bool, granted: bool)
    requires b.Sane() && e < 2
    ensures var t := Arrived(b, e, napi, granted);
            t.Sane() && t.dev[Peer(e)].rxIntr == b.dev[Peer(e)].rxIntr
  {
    if b.stack[Queue(e)] != [] { TakeIsSane(b, e, granted); }
  }

  // The transmission-done interrupt.
  function Completed(r: Books, d: nat): Books
    requires d < |r.dev|
  {
    r.WithDev(d, r.dev[d].(txPackets := r.dev[d].txPackets + 1, rxIntr := false, txIntr := false))
  }

  // A whole transmission: the packet crosses over, the receiver is interrupted if it
  // wants to be, then the sender is.
  ghost function Transmitted(b: Books, d: nat, napi: bool, frame: seq<byte>, granted: bool): Books
    requires b.Sane() && d < 2 && b.stack[Pool(d)] != []
  {
    SendIsSane(b, d, frame);
    var r := Arrived(b.Send(d, frame), Peer(d), napi, granted);
    Completed(r, d)
  }

  function WithFrame(sent: seq<seq<seq<byte>>>, e: nat, frame: seq<byte>): (r: seq<seq<seq<byte>>>)
    ensures |r| == |sent|
  {
    if e < |sent| then sent[e := sent[e] + [frame]] else sent
  }

  lemma TransmittedOnce(b: Books, d: nat, napi: bool, frame: seq<byte>, granted: bool)
    requires b.Sane() && d < 2 && b.stack[Pool(d)] != []
    ensures var t := Transmitted(b, d, napi, frame, granted);
            && t.sent == WithFrame(b.sent, Peer(d), frame)
            && |t.dev| == 2 && t.dev[d].txPackets == b.dev[d].txPackets + 1
  {
  }

  // --- What one operation does to the two sides ---

  // The head of d's receive queue taken off.
  ghost function Dequeued(b: Books, d: nat): Books
    requires b.Sane() && d < 2 && b.stack[Queue(d)] != []
  {
    var rest := b.stack[Queue(d)][..|b.stack[Queue(d)]| - 1];
    b.(stack := b.stack[Queue(d) := rest], dev := b.dev[d := b.dev[d].(rxQueue := Top(rest))])
  }

  // A frame handed up or dropped.
  function Noted(b: Books, d: nat, frame: seq<byte>, granted: bool): Books
    requires |b.dev| == |b.handled| == 2 && d < 2
  {
    b.(dev := b.dev[d := Counted(b.dev[d], granted)],
       handled := b.handled[d := b.handled[d] + [Outcome(frame, granted)]])
  }

  // A packet given back to its pool.
  function Returned(b: Books, e: nat, p: Pkt): Books
    requires |b.dev| == 2 && |b.stack| == LISTS && e < 2
  {
    var pool := b.stack[Pool(e)];
    b.(stack := b.stack[Pool(e) := pool + [p]],
       dev := b.dev[e := b.dev[e].(ppool := p, queueStopped := b.dev[e].queueStopped && pool != [])])
  }

  // The three together are Take.
  lemma TakeInSteps(b: Books, d: nat, granted: bool)
    requires b.Sane() && d < 2 && b.stack[Queue(d)] != []
    ensures var p := b.stack[Queue(d)][|b.stack[Queue(d)]| - 1];
            Returned(Noted(Dequeued(b, d), d, b.data[p], granted), Peer(d), p) == b.Take(d, granted)
  {
    var rest := b.stack[Queue(d)][..|b.stack[Queue(d)]| - 1];
    var x := b.dev[d].(rxQueue := Top(rest));
    assert b.dev[d := x][d := Counted(x, granted)] == b.dev[d := Counted(x, granted)];
  }

  // The head of d's pool taken out.
  function Drawn(b: Books, d: nat): Books
    requires |b.dev| == 2 && |b.stack| == LISTS && d < 2 && b.stack[Pool(d)] != []
  {
    var rest := b.stack[Pool(d)][..|b.stack[Pool(d)]| - 1];
    b.(stack := b.stack[Pool(d) := rest],
       dev := b.dev[d := b.dev[d].(ppool := Top(rest), queueStopped := b.dev[d].queueStopped || rest == [])])
  }

  // A packet with a frame in it put on e's receive queue.
  function Delivered(b: Books, e: nat, p: Pkt, frame: seq<byte>): Books
    requires |b.dev| == |b.sent| == 2 && |b.stack| == LISTS && e < 2
  {
    b.(stack := b.stack[Queue(e) := b.stack[Queue(e)] + [p]], data := b.data[p := frame],
       sent := b.sent[e := b.sent[e] + [frame]], dev := b.dev[e := b.dev[e].(rxQueue := p)])
  }

  lemma DrawnAndDelivered(b: Books, d: nat, frame: seq<byte>)
    requires b.Sane() && d < 2 && b.stack[Pool(d)] != []
    ensures Delivered(Drawn(b, d), Peer(d), b.stack[Pool(d)][|b.stack[Pool(d)]| - 1], frame) == b.Send(d, frame)
  {
  }

  // Taking one frame off a queue disturbs nothing on the other side.
  lemma TakeSides(b: Books, d: nat, granted: bool)
    requires b.Sane() && d < 2 && b.stack[Queue(d)] != []
    ensures var t := b.Take(d, granted);
            t.Sane() && t.Side(d) == HandleTop(b.Side(d), granted) && t.Side(Peer(d)) == b.Side(Peer(d))
  {
    var t, w := b.Take(d, granted), b.Waiting(d);
    assert t.Waiting(d) == w[..|w| - 1];
    assert t.Waiting(Peer(d)) == b.Waiting(Peer(d));
  }

  // The packet given back restarts the queue if that was stopped for want of packets.
  lemma TakeKeepsFlow(b: Books, d: nat, granted: bool)
    requires b.Sane() && d < 2 && b.stack[Queue(d)] != []
    ensures b.FlowOk(d) ==> b.Take(d, granted).Sane() && b.Take(d, granted).FlowOk(d)
    ensures b.FlowOk(Peer(d)) ==> b.Take(d, granted).Sane() && b.Take(d, granted).FlowOk(Peer(d))
  {
  }

  lemma SendSides(b: Books, ls: Lists, held: set<Pkt>, d: nat, frame: seq<byte>)
    requires b.Sane() && d < 2 && b.stack[Pool(d)] != [] && Conserved(ls, held) && ls.stack == b.stack
    ensures var t := b.Send(d, frame);
            t.Sane() && t.Side(d) == b.Side(d) && t.Side(Peer(d)) == SendTo(b.Side(Peer(d)), frame)
  {
    var t, e, top := b.Send(d, frame), Peer(d), |b.stack[Pool(d)]| - 1;
    var p := b.stack[Pool(d)][top];
    assert SnullLists.Linked(ls, Pool(d), top);
    forall i, h | 2 <= i < LISTS && 0 <= h < |b.stack[i]| ensures b.stack[i][h] != p {
      assert SnullLists.Linked(ls, i, h);
    }
    assert t.Waiting(d) == b.Waiting(d);
    assert t.Waiting(e) == b.Waiting(e) + [frame];
  }

  // The queue is stopped exactly when the packet sent was the last in the pool.
  lemma SendKeepsFlow(b: Books, d: nat, frame: seq<byte>)
    requires b.Sane() && d < 2 && b.stack[Pool(d)] != []
    ensures b.FlowOk(d) ==> b.Send(d, frame).Sane() && b.Send(d, frame).FlowOk(d)
    ensures b.FlowOk(Peer(d)) ==> b.Send(d, frame).Sane() && b.Send(d, frame).FlowOk(Peer(d))
  {
  }

  lemma RegularArrival(b: Books, e: nat, granted: bool)
    requires b.Sane() && e < 2 && !b.dev[e].rxIntr && !b.dev[e].txIntr && b.dev[e].rxIntEnabled
    requires b.stack[Queue(e)] != []
    ensures Arrived(b, e, false, granted) == b.Take(e, granted)
  {
    var c := b.WithDev(e, b.dev[e].(rxIntr := true));
    assert c.WithDev(e, c.dev[e].(rxIntr := false)) == b;
  }

  lemma NapiArrival(b: Books, e: nat, granted: bool)
    requires b.Sane() && e < 2 && !b.dev[e].rxIntr && !b.dev[e].txIntr && b.dev[e].rxIntEnabled
    requires b.stack[Queue(e)] != []
    ensures Arrived(b, e, true, granted) == b.WithDev(e, b.dev[e].(rxIntEnabled := false, pollScheduled := true))
  {
  }

  lemma ArrivalSides(b: Books, e: nat, napi: bool, granted: bool)
    requires b.Sane() && e < 2 && b.stack[Queue(e)] != [] && !b.dev[e].rxIntr && !b.dev[e].txIntr
    ensures var t := Arrived(b, e, napi, granted);
            t.Sane() && t.Side(e) == ArriveAt(napi, b.Side(e), granted) && t.Side(Peer(e)) == b.Side(Peer(e))
    ensures b.FlowOk(e) ==> Arrived(b, e, napi, granted).FlowOk(e)
    ensures b.FlowOk(Peer(e)) ==> Arrived(b, e, napi, granted).FlowOk(Peer(e))
  {
    if b.dev[e].rxIntEnabled {
      if napi {
        NapiArrival(b, e, granted);
        var t := b.WithDev(e, b.dev[e].(rxIntEnabled := false, pollScheduled := true));
        assert t.Waiting(e) == b.Waiting(e) && t.Waiting(Peer(e)) == b.Waiting(Peer(e));
      } else {
        RegularArrival(b, e, granted);
        TakeSides(b, e, granted);
        TakeKeepsFlow(b, e, granted);
      }
    }
  }

  // The sender's own interrupt touches nothing but its counter.
  lemma CompletionSides(r: Books, d: nat)
    requires r.Sane() && d < 2 && !r.Side(d).interrupting
    ensures var t := Completed(r, d);
            && t.Sane() && t.Side(d) == r.Side(d) && t.Side(Peer(d)) == r.Side(Peer(d))
            && (r.FlowOk(d) <==> t.FlowOk(d)) && (r.FlowOk(Peer(d)) <==> t.FlowOk(Peer(d)))
  {
    var t := Completed(r, d);
    assert t.Waiting(d) == r.Waiting(d) && t.Waiting(Peer(d)) == r.Waiting(Peer(d));
  }

  // What a whole transmission does to the receiver, and that it does nothing else.
  lemma TransmissionSides(b: Books, ls: Lists, held: set<Pkt>, d: nat, napi: bool, frame: seq<byte>, granted: bool)
    requires b.Sane() && d < 2 && !b.Side(d).interrupting && !b.Side(Peer(d)).interrupting
    requires b.stack[Pool(d)] != [] && Conserved(ls, held) && ls.stack == b.stack
    ensures var t, e := Transmitted(b, d, napi, frame, granted), Peer(d);
            && t.Sane() && t.Side(e) == ArriveAt(napi, SendTo(b.Side(e), frame), granted) && t.Side(d) == b.Side(d)
    ensures b.FlowOk(d) ==> Transmitted(b, d, napi, frame, granted).FlowOk(d)
    ensures b.FlowOk(Peer(d)) ==> Transmitted(b, d, napi, frame, granted).FlowOk(Peer(d))
  {
    var e, s := Peer(d), b.Send(d, frame);
    SendSides(b, ls, held, d, frame);
    SendKeepsFlow(b, d, frame);
    assert !s.Side(e).interrupting;
    ArrivalSides(s, e, napi, granted);
    var r := Arrived(s, e, napi, granted);
    assert r.Side(d) == b.Side(d);
    CompletionSides(r, d);
  }

  // --- What holds between operations ---

  ghost predicate Quiet(b: Books, napi: bool) {
    b.Sane() && SideOk(napi, b.Side(0)) && SideOk(napi, b.Side(1))
  }

  lemma QuietSides(b: Books, napi: bool, d: nat)
    requires Quiet(b, napi) && d < 2
    ensures SideOk(napi, b.Side(d)) && SideOk(napi, b.Side(Peer(d)))
    ensures !b.Side(d).interrupting && !b.Side(Peer(d)).interrupting
    ensures |b.Side(d).waiting| == |b.stack[Queue(d)]|
  {
  }

  lemma SidesAreQuiet(b: Books, napi: bool, d: nat)
    requires b.Sane() && d < 2 && SideOk(napi, b.Side(d)) && SideOk(napi, b.Side(Peer(d)))
    ensures Quiet(b, napi)
  {
  }

  // What validity says about a receiver, spelt out: without NAPI every frame sent has been
  // handled, once and in order; with NAPI frames wait only while a poll is due; and the
  // counters account for every frame either way.
  lemma AccountsAreExact(b: Books, napi: bool, d: nat)
    requires Quiet(b, napi) && d < 2
    ensures !napi ==> Frames(b.handled[d]) == b.sent[d] && b.stack[Queue(d)] == []
    ensures napi && b.stack[Queue(d)] != [] ==> !b.dev[d].rxIntEnabled && b.dev[d].pollScheduled
    ensures b.dev[d].rxPackets + b.dev[d].rxDropped + |b.stack[Queue(d)]| == |b.sent[d]|
    ensures multiset(Frames(b.handled[d])) + multiset(b.Waiting(d)) == multiset(b.sent[d])
  {
    QuietSides(b, napi, d);
    CountsAddUp(b.handled[d]);
  }

  lemma TransmissionKeepsQuiet(b: Books, ls: Lists, held: set<Pkt>, d: nat, napi: bool, frame: seq<byte>, granted: bool)
    requires Quiet(b, napi) && d < 2 && b.stack[Pool(d)] != [] && Conserved(ls, held) && ls.stack == b.stack
    ensures Quiet(Transmitted(b, d, napi, frame, granted), napi)
  {
    QuietSides(b, napi, d);
    TransmissionSides(b, ls, held, d, napi, frame, granted);
    ReceptionKeepsAccounts(napi, b.Side(Peer(d)), frame, granted);
    SidesAreQuiet(Transmitted(b, d, napi, frame, granted), napi, d);
  }

  lemma QuietIsAboutSides(b: Books, t: Books, napi: bool)
    requires Quiet(b, napi) && t.Sane() && t.Side(0) == b.Side(0) && t.Side(1) == b.Side(1)
    ensures Quiet(t, napi)
  {
  }

  lemma NewPacketIsIdle(b: Books, t: Books, d: nat, p: Pkt)
    requires b.Sane() && d < 2
    requires Absent(b.stack, p)
    requires t.data == b.data[p := []] && t.sent == b.sent && t.handled == b.handled
    requires t.stack == b.stack[Pool(d) := b.stack[Pool(d)] + [p]]
    requires t.dev == b.dev[d := b.dev[d].(ppool := p)]
    ensures t.Sane() && t.Side(0) == b.Side(0) && t.Side(1) == b.Side(1)
  {
    assert t.Waiting(0) == b.Waiting(0) && t.Waiting(1) == b.Waiting(1);
  }

  lemma SwitchKeepsQuiet(b: Books, napi: bool, d: nat, stopped: bool)
    requires Quiet(b, napi) && d < 2
    ensures Quiet(b.WithDev(d, b.dev[d].(queueStopped := stopped)), napi)
  {
    var t := b.WithDev(d, b.dev[d].(queueStopped := stopped));
    assert t.Waiting(0) == b.Waiting(0) && t.Waiting(1) == b.Waiting(1);
    assert t.Side(0) == b.Side(0) && t.Side(1) == b.Side(1);
  }

  lemma TakeKeepsQuiet(b: Books, d: nat, granted: bool)
    requires Quiet(b, true) && d < 2 && b.stack[Queue(d)] != []
    ensures Quiet(b.Take(d, granted), true)
  {
    TakeSides(b, d, granted);
    QuietSides(b, true, d);
    HandlingKeepsAccounts(b.Side(d), granted);
    SidesAreQuiet(b.Take(d, granted), true, d);
  }

  lemma OnlyHandledAt(b: Books, t: Books, e: nat, handled: seq<Outcome>)
    requires b.Sane() && t.Sane() && e < 2
    requires t.Side(Peer(e)).handled == b.Side(Peer(e)).handled && t.Side(e).handled == handled
    ensures t.handled == b.handled[e := handled]
  {
  }

  // An arrival in terms of frames: handled at once without NAPI, waiting with it.
  lemma ArrivalHandles(b: Books, t: Books, napi: bool, d: nat, frame: seq<byte>, granted: bool)
    requires b.Sane() && t.Sane() && d < 2 && t.Side(d) == b.Side(d) && SideOk(napi, b.Side(Peer(d)))
    requires t.Side(Peer(d)) == ArriveAt(napi, SendTo(b.Side(Peer(d)), frame), granted)
    ensures var e := Peer(d);
            if napi then
              && t.handled == b.handled && t.Waiting(e) == b.Waiting(e) + [frame]
              && t.dev[e].pollScheduled && !t.dev[e].rxIntEnabled
            else
              t.handled == b.handled[e := b.handled[e] + [Outcome(frame, granted)]]
  {
    var e, s := Peer(d), b.Side(Peer(d));
    ArrivalOutcome(napi, s, frame, granted);
    OnlyHandledAt(b, t, e, t.Side(e).handled);
    if napi { assert b.handled[e := b.handled[e]] == b.handled; }
  }

  // --- A poll ---

  // Between two states of the pair, device d has been polled and has taken `took`.
  ghost predicate Drained(was: Books, b: Books, d: nat, took: seq<Outcome>)
    requires d < 2
  {
    && was.Sane() && b.Sane()
    && (was.FlowOk(0) ==> b.FlowOk(0)) && (was.FlowOk(1) ==> b.FlowOk(1))
    && b.Side(Peer(d)) == was.Side(Peer(d))
    && Polled(was.Side(d), b.Side(d), took)
  }

  lemma DrainedNothing(b: Books, d: nat)
    requires b.Sane() && d < 2
    ensures Drained(b, b, d, [])
  {
  }

  lemma DrainedOneMore(was: Books, b: Books, d: nat, took: seq<Outcome>, granted: bool) returns (more: seq<Outcome>)
    requires d < 2 && Drained(was, b, d, took) && b.stack[Queue(d)] != []
    ensures Drained(was, b.Take(d, granted), d, more)
    ensures |more| == |took| + 1 && took <= more && more[|took|].delivered == granted
  {
    TakeSides(b, d, granted);
    TakeKeepsFlow(b, d, granted);
    assert b.Side(d).waiting == b.Waiting(d);
    PolledOneMore(was.Side(d), b.Side(d), took, granted);
    var w := b.Side(d).waiting;
    more := took + [Outcome(w[|w| - 1], granted)];
  }

  lemma DrainedSentNothing(was: Books, b: Books, d: nat)
    requires d < 2 && was.Sane() && b.Sane()
    requires b.Side(d).sent == was.Side(d).sent && b.Side(Peer(d)).sent == was.Side(Peer(d)).sent
    ensures b.sent == was.sent
  {
  }

  // The end of a poll that emptied the queue: interrupts on again, no poll due.
  function Rearmed(b: Books, d: nat): Books
    requires d < |b.dev|
  {
    b.WithDev(d, b.dev[d].(pollScheduled := false, rxIntEnabled := true))
  }

  lemma RearmSides(b: Books, d: nat)
    requires b.Sane() && d < 2
    ensures var t := Rearmed(b, d);
            && t.Sane() && t.Side(d) == b.Side(d).(scheduled := false, enabled := true)
            && t.Side(Peer(d)) == b.Side(Peer(d))
            && (t.FlowOk(0) <==> b.FlowOk(0)) && (t.FlowOk(1) <==> b.FlowOk(1))
  {
    var t := Rearmed(b, d);
    assert t.Waiting(d) == b.Waiting(d) && t.Waiting(Peer(d)) == b.Waiting(Peer(d));
  }

  lemma RearmKeepsQuiet(b: Books, d: nat)
    requires d < 2 && Quiet(b, true) && b.stack[Queue(d)] == []
    ensures Quiet(Rearmed(b, d), true)
  {
    RearmSides(b, d);
    QuietSides(b, true, d);
    SidesAreQuiet(Rearmed(b, d), true, d);
  }

  lemma RearmKeepsDrained(was: Books, b: Books, d: nat, took: seq<Outcome>)
    requires d < 2 && Drained(was, b, d, took)
    ensures Drained(was, Rearmed(b, d), d, took)
  {
    RearmSides(b, d);
    assert Polled(was.Side(d), Rearmed(b, d).Side(d), took);
  }
}
