// Whole runs of the two snull interfaces (ldd/snull/snull.c).
module SnullRuns {
  import opened Common
  import opened SnullLists
  import opened SnullAccounts
  import opened SnullBooks
  import opened Snull

  datatype Event =
    | Xmit(dev: nat, payload: seq<byte>, granted: bool)
    | PollDue(dev: nat, budget: nat, quota: nat, buffers: seq<bool>)
    | Start(dev: nat)      // snull_open, of a device that is down
    | Stop(dev: nat)       // snull_release, of one that is up

  predicate Possible(ev: Event) {
    ev.dev < 2 && (ev.Xmit? ==> |ev.payload| <= ETH_DATA_LEN)
  }

  // The frames sent to each device once one more event has been handled.
  function SentAfter(sent: seq<seq<seq<byte>>>, ev: Event, ok: bool): (r: seq<seq<seq<byte>>>)
    ensures |r| == |sent|
  {
    if ok && ev.Xmit? && ev.dev < 2 && |sent| == 2 then WithFrame(sent, Peer(ev.dev), Padded(ev.payload)) else sent
  }

  // The frames that the accepted transmissions of a run put on the two receive queues.
  function FramesSent(events: seq<Event>, accepted: seq<bool>): (r: seq<seq<seq<byte>>>)
    requires |events| == |accepted|
    ensures |r| == 2
  {
    if events == [] then [[], []] else
      var n := |events| - 1;
      SentAfter(FramesSent(events[..n], accepted[..n]), events[n], accepted[n])
  }

  lemma OneMoreEvent(events: seq<Event>, n: nat, accepted: seq<bool>, ok: bool)
    requires n == |accepted| < |events|
    ensures FramesSent(events[..n + 1], accepted + [ok]) == SentAfter(FramesSent(events[..n], accepted), events[n], ok)
  {
    assert events[..n + 1][..n] == events[..n];
    assert (accepted + [ok])[..n] == accepted;
  }

  // Flow control is right on every device that is up.
  ghost predicate Running(net: Pair, up: seq<bool>)
    reads net
  {
    && net.Valid() && |up| == 2
    && (up[0] ==> net.Account().FlowOk(0)) && (up[1] ==> net.Account().FlowOk(1))
  }

  // Opening a device that is down while its pool is empty.
  ghost predicate OpensOnEmptyPool(net: Pair, up: seq<bool>, ev: Event)
    reads net
  {
    ev.Start? && ev.dev < |up| && !up[ev.dev] && net.PoolSize(ev.dev) == 0
  }

  method MeetsEmptyPool(net: Pair, up: seq<bool>, ev: Event) returns (meets: bool)
    requires Running(net, up) && Possible(ev)
    ensures meets <==> OpensOnEmptyPool(net, up, ev)
  {
    HeadIsNull(net.Links(), net.held, Pool(ev.dev));
    meets := ev.Start? && !up[ev.dev] && net.dev[ev.dev].ppool == NULL;
  }

  method Transmit(net: Pair, up: seq<bool>, ev: Event) returns (ok: bool)
    requires Running(net, up) && Possible(ev) && ev.Xmit?
    modifies net
    ensures Running(net, up) && net.owner == old(net.owner)
    ensures ok <==> up[ev.dev] && old(net.PoolSize(ev.dev)) > 0
    ensures net.sent == SentAfter(old(net.sent), ev, ok)
  {
    ok := up[ev.dev] && !net.dev[ev.dev].queueStopped;
    if ok {
      ghost var _ := net.Tx(ev.dev, ev.payload, ev.granted);
    }
  }

  method PollIfDue(net: Pair, up: seq<bool>, ev: Event)
    requires Running(net, up) && Possible(ev) && ev.PollDue?
    modifies net
    ensures Running(net, up) && net.owner == old(net.owner) && net.sent == old(net.sent)
  {
    if net.napi && net.dev[ev.dev].pollScheduled {
      ghost var was := net.Account();
      var _, _, _ := net.Poll(ev.dev, ev.budget, ev.quota, ev.buffers);
      DrainedSentNothing(was, net.Account(), ev.dev);
    }
  }

  method SwitchOn(net: Pair, up: seq<bool>, d: nat) returns (now: seq<bool>)
    requires Running(net, up) && d < 2 && !up[d]
    modifies net
    ensures net.Valid() && net.owner == old(net.owner) && net.sent == old(net.sent) && net.stack == old(net.stack)
    ensures now == up[d := true]
    ensures Running(net, now) <==> net.PoolSize(d) > 0
  {
    now := up[d := true];
    net.Open(d);
    assert net.stack == old(net.stack);
    assert net.PoolSize(d) > 0 <==> net.stack[Pool(d)] != [];
  }

  method SwitchOff(net: Pair, up: seq<bool>, d: nat) returns (now: seq<bool>)
    requires Running(net, up) && d < 2
    modifies net
    ensures net.Valid() && net.owner == old(net.owner) && net.sent == old(net.sent) && net.stack == old(net.stack)
    ensures now == up[d := false] && Running(net, now)
  {
    now := up[d := false];
    net.Stop(d);
  }

  method Switch(net: Pair, up: seq<bool>, ev: Event) returns (now: seq<bool>)
    requires Running(net, up) && Possible(ev) && (ev.Start? || ev.Stop?)
    modifies net
    ensures net.Valid() && net.owner == old(net.owner) && net.sent == old(net.sent)
    ensures now == up[ev.dev := ev.Start?]
    ensures Running(net, now) <==> !old(OpensOnEmptyPool(net, up, ev))
    ensures net.PoolSize(ev.dev) == old(net.PoolSize(ev.dev))
  {
    if ev.Start? && !up[ev.dev] {
      now := SwitchOn(net, up, ev.dev);
    } else if ev.Stop? && up[ev.dev] {
      now := SwitchOff(net, up, ev.dev);
    } else {
      now := up;
    }
  }

  // A transmission is accepted exactly if its device is up and its pool holds a packet.
  // Flow control stays right exactly unless a device is opened with an empty pool.
  method HandleEvent(net: Pair, up: seq<bool>, ev: Event) returns (ok: bool, now: seq<bool>)
    requires Running(net, up) && Possible(ev)
    modifies net
    ensures net.Valid() && net.owner == old(net.owner)
    ensures ok <==> ev.Xmit? && up[ev.dev] && old(net.PoolSize(ev.dev)) > 0
    ensures now == if ev.Start? || ev.Stop? then up[ev.dev := ev.Start?] else up
    ensures Running(net, now) <==> !old(OpensOnEmptyPool(net, up, ev))
    ensures !Running(net, now) ==> net.PoolSize(ev.dev) == 0
    ensures net.sent == SentAfter(old(net.sent), ev, ok)
  {
    ok, now := false, up;
    match ev
    case Xmit(_, _, _) => ok := Transmit(net, up, ev);
    case PollDue(_, _, _, _) => PollIfDue(net, up, ev);
    case _ => now := Switch(net, up, ev);
  }

  // How many packets a device and its peer's receive queue hold between them.
  ghost function Packets(net: Pair, d: nat): nat
    requires d < 2
    reads net
  {
    net.PoolSize(d) + net.QueueLength(Peer(d))
  }

  lemma PacketsAreOwned(net: Pair, d: nat)
    requires net.Valid() && d < 2
    ensures Packets(net, d) == |Owned(net.owner, d)|
  {
    PacketsAddUp(net.Links(), d);
  }

  method RunOn(net: Pair, up: seq<bool>, events: seq<Event>) returns (accepted: seq<bool>, now: seq<bool>, sound: bool)
    requires Running(net, up) && net.sent == [[], []]
    requires forall i :: 0 <= i < |events| ==> Possible(events[i])
    modifies net
    ensures net.Valid() && net.owner == old(net.owner)
    ensures |accepted| <= |events| && net.sent == FramesSent(events[..|accepted|], accepted)
    ensures sound <==> Running(net, now)
    ensures sound ==> |accepted| == |events|
    ensures !sound ==> accepted != [] && events[|accepted| - 1].Start? && net.PoolSize(events[|accepted| - 1].dev) == 0
  {
    accepted, now, sound := [], up, true;
    var done := 0;
    while done < |events| && sound
      invariant 0 <= done == |accepted| <= |events|
      invariant net.Valid() && net.owner == old(net.owner)
      invariant net.sent == FramesSent(events[..done], accepted)
      invariant sound <==> Running(net, now)
      invariant !sound ==> done > 0 && events[done - 1].Start? && net.PoolSize(events[done - 1].dev) == 0
      decreases |events| - done
    {
      assert Possible(events[done]);
      var ok;
      var meets := MeetsEmptyPool(net, now, events[done]);
      ok, now := HandleEvent(net, now, events[done]);
      sound := !meets;
      OneMoreEvent(events, done, accepted, ok);
      accepted := accepted + [ok];
      done := done + 1;
    }
  }

  // Whatever the kernel does with two new devices: it transmits only on a device that is up
  // and whose queue is not stopped, and polls only one that asked for it. Each device has
  // then been sent exactly the accepted frames, in order, and no packet is lost. Flow
  // control is right all along, or up to an open with an empty pool, where the run ends.
  method Run(net: Pair, up: seq<bool>, events: seq<Event>) returns (accepted: seq<bool>, now: seq<bool>, sound: bool)
    requires Running(net, up) && net.sent == [[], []]
    requires forall i :: 0 <= i < |events| ==> Possible(events[i])
    modifies net
    ensures net.Valid() && net.owner == old(net.owner)
    ensures Packets(net, 0) == old(Packets(net, 0)) && Packets(net, 1) == old(Packets(net, 1))
    ensures |accepted| <= |events| && net.sent == FramesSent(events[..|accepted|], accepted)
    ensures sound <==> Running(net, now)
    ensures sound ==> |accepted| == |events|
    ensures !sound ==> accepted != [] && events[|accepted| - 1].Start? && net.PoolSize(events[|accepted| - 1].dev) == 0
  {
    PacketsAreOwned(net, 0);
    PacketsAreOwned(net, 1);
    accepted, now, sound := RunOn(net, up, events);
    PacketsAreOwned(net, 0);
    PacketsAreOwned(net, 1);
  }

  // --- Runs that go wrong ---

  // Opening a device whose pool came out empty starts a queue that should be stopped.
  method OpenWithEmptyPool(useNapi: bool, poolSize: nat) returns (net: Pair)
    ensures net.Valid() && !net.Account().FlowOk(0) && net.PoolSize(0) == 0
  {
    net := new Pair(useNapi);
    net.SetupPool(0, poolSize, 0);
    net.Open(0);
  }

  // A sender that is up, with some packets, and a polled receiver that nothing was sent to.
  ghost predicate Ready(net: Pair, frames: seq<seq<byte>>, packets: nat)
    reads net
  {
    && net.Valid() && net.napi && net.Account().FlowOk(0) && Packets(net, 0) == packets
    && net.Account().Side(1).waiting == net.Account().Side(1).sent == frames
    && net.Account().Side(1).handled == []
  }

  method NewPolledPair(packets: nat) returns (net: Pair)
    requires packets > 0
    ensures fresh(net) && Ready(net, [], packets)
  {
    net := new Pair(true);
    net.SetupPool(0, packets, packets);
    net.Open(0);
    assert net.Account().Waiting(1) == [];
  }

  method SendOne(net: Pair, payload: seq<byte>, ghost frames: seq<seq<byte>>, ghost packets: nat)
    requires Ready(net, frames, packets) && |frames| < packets && |payload| <= ETH_DATA_LEN
    modifies net
    ensures Ready(net, frames + [Padded(payload)], packets)
  {
    QuietSides(net.Account(), true, 1);
    PacketsAreOwned(net, 0);
    ghost var _ := net.Tx(0, payload, true);
    PacketsAreOwned(net, 0);
  }

  // A device closed and opened again while all its packets are on their way starts a queue
  // that should be stopped, too.
  method ReopenWithPacketsInFlight(payload: seq<byte>) returns (net: Pair)
    requires |payload| <= ETH_DATA_LEN
    ensures net.Valid() && !net.Account().FlowOk(0) && net.PoolSize(0) == 0 && Packets(net, 0) == 1
  {
    net := NewPolledPair(1);
    SendOne(net, payload, [], 1);
    QuietSides(net.Account(), true, 1);
    net.Stop(0);
    net.Open(0);
  }

  // A poll that may deliver one frame, of a queue nothing was taken from, takes the newest.
  lemma NewestTaken(was: Receiver, s: Receiver, took: seq<Outcome>)
    requires Polled(was, s, took) && SideOk(true, was) && SideOk(true, s) && was.handled == [] && was.waiting != []
    requires s.waiting != [] ==> s.packets - was.packets == 1
    ensures s.handled != [] && s.handled[0].frame == was.waiting[|was.waiting| - 1]
  {
    assert s.handled == took;
    assert was.waiting[..|was.waiting|] == was.waiting;
  }

  lemma {:induction false} FirstFrame(os: seq<Outcome>)
    requires os != []
    ensures Frames(os)[0] == os[0].frame
    decreases |os|
  {
    if |os| > 1 { FirstFrame(os[..|os| - 1]); }
  }

  lemma NewestCameFirst(s: Receiver, a: seq<byte>, b: seq<byte>)
    requires s.sent == [a, b] && a != b && s.handled != [] && s.handled[0].frame == b
    ensures !InOrder(s)
  {
    FirstFrame(s.handled);
    assert (Frames(s.handled) + s.waiting)[0] == b;
  }

  // One poll of the receiver that may deliver one frame.
  method PollForOne(net: Pair, ghost was: Receiver) returns (ghost now: Receiver, ghost took: seq<Outcome>)
    requires net.Valid() && net.napi && net.Device(1).pollScheduled && net.Account().Side(1) == was
    modifies net
    ensures net.Valid() && net.Account().Side(1) == now
    ensures Polled(was, now, took) && SideOk(true, now) && (now.waiting != [] ==> now.packets - was.packets == 1)
  {
    var more, used;
    more, used, took := net.Poll(1, 1, 1, []);
    now := net.Account().Side(1);
    QuietSides(net.Account(), true, 1);
    assert now.packets - was.packets == used;
  }

  lemma ReadyIsPolled(net: Pair, frames: seq<seq<byte>>, packets: nat)
    requires Ready(net, frames, packets) && frames != []
    ensures SideOk(true, net.Account().Side(1)) && net.Device(1).pollScheduled
  {
    QuietSides(net.Account(), true, 1);
  }

  method PollReceiver(net: Pair, ghost frames: seq<seq<byte>>, ghost packets: nat) returns (ghost now: Receiver)
    requires Ready(net, frames, packets) && frames != []
    modifies net
    ensures net.Valid() && net.Account().Side(1) == now
    ensures now.sent == frames && now.handled != [] && now.handled[0].frame == frames[|frames| - 1]
  {
    ReadyIsPolled(net, frames, packets);
    ghost var was := net.Account().Side(1);
    ghost var took;
    now, took := PollForOne(net, was);
    NewestTaken(was, now, took);
  }

  method TwoWaiting(a: seq<byte>, b: seq<byte>) returns (net: Pair)
    requires |a| <= ETH_DATA_LEN && |b| <= ETH_DATA_LEN
    ensures fresh(net) && Ready(net, [Padded(a), Padded(b)], 2)
  {
    ghost var first, second := [Padded(a)], [Padded(a), Padded(b)];
    assert [] + [Padded(a)] == first && first + [Padded(b)] == second;
    net := NewPolledPair(2);
    SendOne(net, a, [], 2);
    SendOne(net, b, first, 2);
  }

  // Two different frames on a polled device are handled the second first.
  method SecondIsHandledFirst(a: seq<byte>, b: seq<byte>) returns (net: Pair)
    requires |a| <= ETH_DATA_LEN && |b| <= ETH_DATA_LEN && Padded(a) != Padded(b)
    ensures net.Valid() && net.Account().Side(1).sent == [Padded(a), Padded(b)]
    ensures !InOrder(net.Account().Side(1))
  {
    net := TwoWaiting(a, b);
    ghost var now := PollReceiver(net, [Padded(a), Padded(b)], 2);
    NewestCameFirst(now, Padded(a), Padded(b));
  }
}
