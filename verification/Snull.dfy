// The two snull interfaces: transmitting on one is receiving on the other, with packets
// from the sender's pool, in interrupt or in polling (NAPI) mode (ldd/snull/snull.c).
// The lockup simulation and the transmit timeout are not modelled.
module Snull {
  import opened Common
  import opened SnullLists
  import opened SnullAccounts
  import opened SnullBooks

  const ETH_ZLEN := 60
  const ETH_DATA_LEN := 1500

  // snull_tx pads short frames with zeros.
  function Padded(data: seq<byte>): (frame: seq<byte>)
    ensures |frame| == (if |data| < 60 then 60 else |data|) && data <= frame
    ensures forall i :: |data| <= i < |frame| ==> frame[i] == 0
  {
    if |data| < ETH_ZLEN then data + seq(ETH_ZLEN - |data|, _ => 0) else data
  }

  class Pair {
    const napi: bool
    var dev: seq<Priv>
    var next: map<Pkt, Pkt>
    var owner: map<Pkt, nat>
    var data: map<Pkt, seq<byte>>
    ghost var stack: seq<seq<Pkt>>
    ghost var place: map<Pkt, Place>
    ghost var held: set<Pkt>                 // packets in the hands of running code
    ghost var sent: seq<seq<seq<byte>>>      // frames put on each device's receive queue, in order
    ghost var handled: seq<seq<Outcome>>     // frames taken off it, in order

    ghost function Links(): Lists
      reads this
    {
      Lists(next, stack, place, owner)
    }

    // The lists hang off the four head pointers, with no packet lost or shared.
    ghost predicate Linked()
      reads this
    {
      && |dev| == |sent| == |handled| == 2
      && Conserved(Links(), held)
      && dev[0].ppool == Links().Head(0) && dev[1].ppool == Links().Head(1)
      && dev[0].rxQueue == Links().Head(2) && dev[1].rxQueue == Links().Head(3)
    }

    ghost function Account(): Books
      reads this
    {
      Books(dev, stack, data, sent, handled)
    }

    // What holds whenever no driver code is running.
    ghost predicate Valid()
      reads this
    {
      Linked() && held == {} && Quiet(Account(), napi)
    }

    constructor (useNapi: bool)
      ensures Valid() && napi == useNapi && dev == [RESET, RESET]
      ensures stack == [[], [], [], []]
    {
      napi, dev := useNapi, [RESET, RESET];
      next, owner, data, place, held := map[], map[], map[], map[], {};
      stack := [[], [], [], []];
      sent, handled := [[], []], [[], []];
    }

    method Kmalloc() returns (p: Pkt)
      ensures p != NULL && p !in next
    {
      ghost var spare := SpareAddress(next.Keys);
      assert spare != NULL && spare !in next;
      p :| p != NULL && p !in next;
    }

    // kmalloc of a packet, and the three assignments that put it into the pool.
    method LinkNewPacket(d: nat) returns (p: Pkt)
      requires Linked() && held == {} && d < 2
      modifies this`dev, this`next, this`owner, this`data, this`stack, this`place
      ensures Linked()
      ensures Absent(old(stack), p)
      ensures stack == old(stack)[Pool(d) := old(stack)[Pool(d)] + [p]]
      ensures dev == old(dev)[d := old(dev)[d].(ppool := p)]
      ensures data == old(data)[p := []]
    {
      p := Kmalloc();
      NewPacket(Links(), p, d);
      ghost var t := Links().(owner := owner[p := d]).Push(Pool(d), p);
      PushMovesOneHead(Links().(owner := owner[p := d]), Pool(d), p);
      owner, data := owner[p := d], data[p := []];
      next := next[p := dev[d].ppool];
      dev := dev[d := dev[d].(ppool := p)];
      place, stack := t.place, t.stack;
      assert Links() == t;
    }

    // One turn of its loop: a fresh packet at the head of the pool.
    method AddToPool(d: nat)
      requires Valid() && d < 2
      modifies this`dev, this`next, this`owner, this`data, this`stack, this`place
      ensures Valid() && |stack[Pool(d)]| == |old(stack)[Pool(d)]| + 1
      ensures stack == old(stack)[Pool(d) := stack[Pool(d)]]
      ensures Account().Side(0) == old(Account()).Side(0) && Account().Side(1) == old(Account()).Side(1)
    {
      ghost var b := Account();
      ghost var p := LinkNewPacket(d);
      NewPacketIsIdle(b, Account(), d, p);
      QuietIsAboutSides(b, Account(), napi);
    }

    // snull_setup_pool, at initialisation; `granted` allocations succeed before one fails.
    method SetupPool(d: nat, poolSize: nat, granted: nat)
      requires Valid() && d < 2 && stack[Pool(d)] == []
      modifies this`dev, this`next, this`owner, this`data, this`stack, this`place
      ensures Valid() && |stack[Pool(d)]| == Min(poolSize, granted)
      ensures stack == old(stack)[Pool(d) := stack[Pool(d)]]
      ensures Account().Side(0) == old(Account()).Side(0) && Account().Side(1) == old(Account()).Side(1)
    {
      var i := 0;
      while i < poolSize
        invariant 0 <= i <= Min(poolSize, granted)
        invariant Valid() && |stack[Pool(d)]| == i
        invariant stack == old(stack)[Pool(d) := stack[Pool(d)]]
        invariant Account().Side(0) == old(Account()).Side(0) && Account().Side(1) == old(Account()).Side(1)
      {
        if i >= granted {
          return;
        }
        AddToPool(d);
        i := i + 1;
      }
    }

    // snull_open: the queue is started whatever the pool holds, so flow control is right
    // afterwards if and only if the pool is not empty.
    method Open(d: nat)
      requires Valid() && d < 2
      modifies this`dev
      ensures Valid() && dev == old(dev)[d := old(dev)[d].(queueStopped := false)]
      ensures Account().FlowOk(d) <==> stack[Pool(d)] != []
      ensures old(Account()).FlowOk(Peer(d)) ==> Account().FlowOk(Peer(d))
    {
      ghost var b := Account();
      SwitchKeepsQuiet(b, napi, d, false);
      dev := dev[d := dev[d].(queueStopped := false)];
      assert Account() == b.WithDev(d, b.dev[d].(queueStopped := false));
    }

    // snull_release
    method Stop(d: nat)
      requires Valid() && d < 2
      modifies this`dev
      ensures Valid() && dev == old(dev)[d := old(dev)[d].(queueStopped := true)]
      ensures old(Account()).FlowOk(Peer(d)) ==> Account().FlowOk(Peer(d))
    {
      ghost var b := Account();
      SwitchKeepsQuiet(b, napi, d, true);
      dev := dev[d := dev[d].(queueStopped := true)];
      assert Account() == b.WithDev(d, b.dev[d].(queueStopped := true));
    }

    // snull_get_tx_buffer; like the driver, it takes for granted that the pool has a packet.
    method GetTxBuffer(d: nat) returns (p: Pkt)
      requires Linked() && d < 2 && stack[Pool(d)] != []
      modifies this`dev, this`stack, this`place, this`held
      ensures Linked() && p == old(Links().Head(Pool(d))) && p !in old(held) && held == old(held) + {p}
      ensures p in owner && owner[p] == d
      ensures stack == old(stack)[Pool(d) := old(stack)[Pool(d)][..|old(stack)[Pool(d)]| - 1]]
      ensures dev == old(dev)[d := old(dev)[d].(ppool := Links().Head(Pool(d)),
                       queueStopped := old(dev)[d].queueStopped || stack[Pool(d)] == [])]
    {
      PopConserves(Links(), held, Pool(d));
      ghost var popped := Links().Pop(Pool(d));
      p := dev[d].ppool;
      HeadIsNull(popped, held + {p}, Pool(d));
      var priv := dev[d].(ppool := next[p]);
      if priv.ppool == NULL {
        priv := priv.(queueStopped := true);
      }
      dev := dev[d := priv];
      stack, place, held := popped.stack, popped.place, held + {p};
      assert Links() == popped;
    }

    // snull_release_buffer
    method ReleaseBuffer(p: Pkt)
      requires Linked() && p in held && p in owner && owner[p] < 2
      modifies this`dev, this`next, this`stack, this`place, this`held
      ensures Linked() && held == old(held) - {p}
      ensures var d := owner[p];
              && stack == old(stack)[Pool(d) := old(stack)[Pool(d)] + [p]]
              && dev == old(dev)[d := old(dev)[d].(ppool := p,
                          queueStopped := old(dev)[d].queueStopped && old(stack)[Pool(d)] != [])]
    {
      var d := owner[p];
      ghost var was := Links();
      HeadIsNull(was, held, Pool(d));
      PushConserves(was, held, Pool(d), p);
      ghost var pushed := was.Push(Pool(d), p);
      PushMovesOneHead(was, Pool(d), p);
      next := next[p := dev[d].ppool];
      var priv := dev[d].(ppool := p);
      if priv.queueStopped && next[p] == NULL {
        priv := priv.(queueStopped := false);
      }
      dev := dev[d := priv];
      stack, place, held := pushed.stack, pushed.place, held - {p};
      assert Links() == pushed;
    }

    // snull_enqueue_buf
    method EnqueueBuf(d: nat, p: Pkt)
      requires Linked() && d < 2 && p in held && p in owner && owner[p] == Peer(d)
      modifies this`dev, this`next, this`stack, this`place, this`held
      ensures Linked() && held == old(held) - {p}
      ensures stack == old(stack)[Queue(d) := old(stack)[Queue(d)] + [p]]
      ensures dev == old(dev)[d := old(dev)[d].(rxQueue := p)]
    {
      PushConserves(Links(), held, Queue(d), p);
      PushMovesOneHead(Links(), Queue(d), p);
      ghost var pushed := Links().Push(Queue(d), p);
      next := next[p := dev[d].rxQueue];
      dev := dev[d := dev[d].(rxQueue := p)];
      stack, place, held := pushed.stack, pushed.place, held - {p};
    }

    // snull_dequeue_buf, and the same three lines in the interrupt handler.
    method DequeueBuf(d: nat) returns (p: Pkt)
      requires Linked() && d < 2
      modifies this`dev, this`stack, this`place, this`held
      ensures Linked()
      ensures p == NULL <==> old(stack)[Queue(d)] == []
      ensures p == NULL ==> dev == old(dev) && stack == old(stack) && place == old(place) && held == old(held)
      ensures p != NULL ==> p == old(Links().Head(Queue(d))) && p !in old(held) && held == old(held) + {p}
      ensures p != NULL ==> p in owner && owner[p] == Peer(d)
      ensures p != NULL ==> stack == old(stack)[Queue(d) := old(stack)[Queue(d)][..|old(stack)[Queue(d)]| - 1]]
      ensures p != NULL ==> dev == old(dev)[d := old(dev)[d].(rxQueue := Links().Head(Queue(d)))]
    {
      p := dev[d].rxQueue;
      HeadIsNull(Links(), held, Queue(d));
      if p != NULL {
        PopConserves(Links(), held, Queue(d));
        ghost var popped := Links().Pop(Queue(d));
        dev := dev[d := dev[d].(rxQueue := next[p])];
        stack, place, held := popped.stack, popped.place, held + {p};
        assert Links() == popped;
      }
    }

    // snull_rx, and the same lines in snull_poll: hand the frame up, or drop it when no
    // socket buffer can be had.
    method Rx(d: nat, p: Pkt, granted: bool)
      requires Linked() && d < 2 && p in data
      modifies this`dev, this`handled
      ensures Linked()
      ensures dev == old(dev)[d := Counted(old(dev)[d], granted)]
      ensures handled == old(handled)[d := old(handled)[d] + [Outcome(data[p], granted)]]
    {
      dev := dev[d := if granted then dev[d].(rxPackets := dev[d].rxPackets + 1)
                      else dev[d].(rxDropped := dev[d].rxDropped + 1)];
      handled := handled[d := handled[d] + [Outcome(data[p], granted)]];
    }

    // Take the head of a receive queue, hand it up or drop it, and give the packet back.
    method TakeOne(d: nat, granted: bool)
      requires Linked() && d < 2 && held == {} && Account().Sane() && stack[Queue(d)] != []
      modifies this`dev, this`next, this`stack, this`place, this`held, this`handled
      ensures Linked() && held == {} && Account() == old(Account()).Take(d, granted)
    {
      ghost var was := Account();
      TakeInSteps(was, d, granted);
      var p := DequeueBuf(d);
      ghost var dequeued := Account();
      assert dequeued == Dequeued(was, d) && p == was.stack[Queue(d)][|was.stack[Queue(d)]| - 1];
      Rx(d, p, granted);
      ghost var noted := Account();
      assert noted == Noted(dequeued, d, was.data[p], granted);
      ReleaseBuffer(p);
      assert Account() == Returned(noted, Peer(d), p);
    }

    // snull_regular_interrupt
    method RegularInterrupt(d: nat, granted: bool)
      requires Linked() && d < 2 && held == {} && Account().Sane()
      modifies this`dev, this`next, this`stack, this`place, this`held, this`handled
      ensures Linked() && held == {} && Account() == Interrupted(old(Account()), d, false, granted)
    {
      HeadIsNull(Links(), held, Queue(d));
      ghost var was := Account();
      var status := dev[d];
      var priv := status.(rxIntr := false, txIntr := false);
      if status.txIntr {
        priv := priv.(txPackets := priv.txPackets + 1);
      }
      dev := dev[d := priv];
      assert Account() == was.WithDev(d, priv) && Account().Sane();
      if status.rxIntr && priv.rxQueue != NULL {
        TakeOne(d, granted);
      }
    }

    // snull_napi_interrupt
    method NapiInterrupt(d: nat)
      requires Linked() && d < 2 && held == {} && Account().Sane()
      modifies this`dev
      ensures Linked() && Account() == Interrupted(old(Account()), d, true, false)
    {
      var status := dev[d];
      var priv := status.(rxIntr := false, txIntr := false);
      if status.rxIntr {
        priv := priv.(rxIntEnabled := false, pollScheduled := true);
      }
      if status.txIntr {
        priv := priv.(txPackets := priv.txPackets + 1);
      }
      dev := dev[d := priv];
    }

    method Interrupt(d: nat, granted: bool)
      requires Linked() && d < 2 && held == {} && Account().Sane()
      modifies this`dev, this`next, this`stack, this`place, this`held, this`handled
      ensures Linked() && held == {} && Account() == Interrupted(old(Account()), d, napi, granted)
    {
      if napi {
        NapiInterrupt(d);
      } else {
        RegularInterrupt(d, granted);
      }
    }

    // The middle of snull_hw_tx: a packet from the pool, filled and put on the peer's queue.
    method Cross(d: nat, frame: seq<byte>)
      requires Linked() && d < 2 && held == {} && Account().Sane() && stack[Pool(d)] != []
      modifies this`dev, this`next, this`stack, this`place, this`held, this`data, this`sent
      ensures Linked() && held == {} && Account() == old(Account()).Send(d, frame)
    {
      DrawnAndDelivered(Account(), d, frame);
      ghost var was := Account();
      var p := GetTxBuffer(d);
      ghost var drawn := Account();
      assert drawn == Drawn(was, d) && p == was.stack[Pool(d)][|was.stack[Pool(d)]| - 1];
      data := data[p := frame];
      EnqueueBuf(Peer(d), p);
      sent := sent[Peer(d) := sent[Peer(d)] + [frame]];
      assert Account() == Delivered(drawn, Peer(d), p, frame);
    }

    // The receive interrupt raised on the twin device.
    method RaiseRx(e: nat, granted: bool)
      requires Linked() && e < 2 && held == {} && Account().Sane()
      modifies this`dev, this`next, this`stack, this`place, this`held, this`handled
      ensures Linked() && held == {} && Account() == Arrived(old(Account()), e, napi, granted)
    {
      if dev[e].rxIntEnabled {
        dev := dev[e := dev[e].(rxIntr := true)];
        Interrupt(e, granted);
      }
    }

    // The transmission-done interrupt on the sending device.
    method RaiseTx(d: nat)
      requires Linked() && d < 2 && held == {} && Account().Sane() && !dev[d].rxIntr
      modifies this`dev, this`next, this`stack, this`place, this`held, this`handled
      ensures Linked() && held == {}
      ensures Account() == Completed(old(Account()), d)
    {
      dev := dev[d := dev[d].(txIntr := true)];
      Interrupt(d, false);
    }

    // The two interrupts simulated at the end of snull_hw_tx.
    method RaiseBoth(d: nat, granted: bool)
      requires Linked() && d < 2 && held == {} && Account().Sane() && !dev[d].rxIntr
      modifies this`dev, this`next, this`stack, this`place, this`held, this`handled
      ensures Linked() && held == {}
      ensures Account() == Completed(Arrived(old(Account()), Peer(d), napi, granted), d)
    {
      ArrivedIsSane(Account(), Peer(d), napi, granted);
      RaiseRx(Peer(d), granted);
      RaiseTx(d);
    }

    // snull_hw_tx
    method HwTx(d: nat, frame: seq<byte>, granted: bool)
      requires Linked() && d < 2 && held == {} && Account().Sane() && stack[Pool(d)] != []
      requires !dev[d].rxIntr
      modifies this
      ensures Linked() && held == {} && owner == old(owner)
      ensures Account() == Transmitted(old(Account()), d, napi, frame, granted)
    {
      SendIsSane(Account(), d, frame);
      Cross(d, frame);
      RaiseBoth(d, granted);
    }

    function Device(d: nat): Priv
      reads this
    {
      if d < |dev| then dev[d] else RESET
    }

    // The transmission of a frame already padded.
    method TxFrame(d: nat, frame: seq<byte>, granted: bool)
      requires Valid() && d < 2 && Account().FlowOk(d) && !dev[d].queueStopped
      modifies this
      ensures Valid() && owner == old(owner)
      ensures sent == WithFrame(old(sent), Peer(d), frame)
      ensures Device(d).txPackets == old(Device(d)).txPackets + 1
      ensures Account().FlowOk(d)
      ensures old(Account()).FlowOk(Peer(d)) ==> Account().FlowOk(Peer(d))
      ensures Account().Side(d) == old(Account()).Side(d)
      ensures Account().Side(Peer(d)) == ArriveAt(napi, SendTo(old(Account()).Side(Peer(d)), frame), granted)
    {
      QuietSides(Account(), napi, d);
      TransmissionSides(Account(), Links(), held, d, napi, frame, granted);
      TransmissionKeepsQuiet(Account(), Links(), held, d, napi, frame, granted);
      TransmittedOnce(Account(), d, napi, frame, granted);
      HwTx(d, frame, granted);
    }

    // A whole snull_tx. The kernel calls it only while the queue is not stopped, which is
    // what keeps it from an empty pool. A short payload is padded with zeros to 60 bytes;
    // without NAPI the receiver handles the frame at once, with it the frame waits.
    method Tx(d: nat, payload: seq<byte>, granted: bool) returns (ghost frame: seq<byte>)
      requires Valid() && d < 2 && Account().FlowOk(d) && !dev[d].queueStopped && |payload| <= ETH_DATA_LEN
      modifies this
      ensures Valid() && owner == old(owner)
      ensures frame == Padded(payload)
      ensures |frame| == (if |payload| < 60 then 60 else |payload|) && payload <= frame
      ensures forall i :: |payload| <= i < |frame| ==> frame[i] == 0
      ensures sent == old(sent)[Peer(d) := old(sent)[Peer(d)] + [frame]]
      ensures !napi ==> handled == old(handled)[Peer(d) := old(handled)[Peer(d)] + [Outcome(frame, granted)]]
      ensures napi ==> handled == old(handled)
      ensures napi ==> Account().Waiting(Peer(d)) == old(Account()).Waiting(Peer(d)) + [frame]
      ensures napi ==> Device(Peer(d)).pollScheduled && !Device(Peer(d)).rxIntEnabled
      ensures Device(d).txPackets == old(Device(d)).txPackets + 1
      ensures Account().FlowOk(d)
      ensures old(Account()).FlowOk(Peer(d)) ==> Account().FlowOk(Peer(d))
      ensures Account().Side(d) == old(Account()).Side(d)
      ensures Account().Side(Peer(d)) == ArriveAt(napi, SendTo(old(Account()).Side(Peer(d)), Padded(payload)), granted)
    {
      ghost var was := Account();
      QuietSides(was, napi, d);
      frame := Padded(payload);
      TxFrame(d, Padded(payload), granted);
      ArrivalHandles(was, Account(), napi, d, frame, granted);
    }

    ghost function QueueLength(d: nat): nat
      reads this
    {
      if Queue(d) < |stack| then |stack[Queue(d)]| else 0
    }

    ghost function PoolSize(d: nat): nat
      reads this
    {
      if d < |stack| then |stack[Pool(d)]| else 0
    }

    // netif_rx_complete and snull_rx_ints, after a poll that emptied the queue.
    method Rearm(d: nat, ghost was: Books, ghost took: seq<Outcome>)
      requires napi && Valid() && d < 2 && QueueLength(d) == 0 && Drained(was, Account(), d, took)
      modifies this`dev
      ensures Valid() && Drained(was, Account(), d, took)
      ensures Device(d) == old(Device(d)).(pollScheduled := false, rxIntEnabled := true)
    {
      ghost var b := Account();
      RearmKeepsQuiet(b, d);
      RearmKeepsDrained(was, b, d, took);
      dev := dev[d := dev[d].(pollScheduled := false, rxIntEnabled := true)];
      assert Account() == Rearmed(b, d);
    }

    // The end of snull_poll.
    method FinishPoll(d: nat, ghost was: Books, ghost took: seq<Outcome>) returns (more: bool)
      requires napi && Valid() && d < 2 && Drained(was, Account(), d, took) && Device(d).pollScheduled
      requires Device(d).rxQueue == NULL <==> QueueLength(d) == 0
      modifies this`dev
      ensures Valid() && Drained(was, Account(), d, took)
      ensures more <==> QueueLength(d) > 0
      ensures Device(d) == old(Device(d)).(pollScheduled := more, rxIntEnabled := Device(d).rxIntEnabled)
    {
      more := Device(d).rxQueue != NULL;
      if !more {
        Rearm(d, was, took);
      }
    }

    // One turn of snull_poll's loop, the polling having begun at `was`.
    method PollOne(d: nat, granted: bool, ghost was: Books, ghost took: seq<Outcome>) returns (ghost more: seq<Outcome>)
      requires napi && Valid() && d < 2 && QueueLength(d) > 0 && Drained(was, Account(), d, took)
      modifies this
      ensures Valid() && Drained(was, Account(), d, more) && owner == old(owner)
      ensures |more| == |took| + 1 && took <= more && more[|took|].delivered == granted
      ensures Device(d) == Counted(old(Device(d)), granted).(rxQueue := Device(d).rxQueue)
      ensures QueueLength(d) < old(QueueLength(d))
      ensures Device(d).rxQueue == NULL <==> QueueLength(d) == 0
    {
      more := DrainedOneMore(was, Account(), d, took, granted);
      TakeKeepsQuiet(Account(), d, granted);
      TakeOne(d, granted);
      HeadIsNull(Links(), held, Queue(d));
    }

    // The loop of snull_poll.
    method Drain(d: nat, limit: nat, granted: seq<bool>) returns (used: nat, ghost took: seq<Outcome>)
      requires napi && Valid() && d < 2
      modifies this
      ensures Valid() && Drained(old(Account()), Account(), d, took) && owner == old(owner)
      ensures Device(d).pollScheduled == old(Device(d)).pollScheduled
      ensures used == Device(d).rxPackets - old(Device(d)).rxPackets <= limit
      ensures Device(d).rxQueue == NULL <==> QueueLength(d) == 0
      ensures QueueLength(d) > 0 ==> used == limit
      ensures AsGranted(took, granted)
    {
      ghost var was, first := Account(), Device(d);
      used, took := 0, [];
      var n: nat := 0;
      DrainedNothing(was, d);
      HeadIsNull(Links(), held, Queue(d));
      while used < limit && dev[d].rxQueue != NULL
        invariant Valid() && Drained(was, Account(), d, took) && owner == old(owner)
        invariant Device(d).pollScheduled == first.pollScheduled
        invariant Device(d).rxQueue == NULL <==> QueueLength(d) == 0
        invariant used == Device(d).rxPackets - first.rxPackets <= limit
        invariant n == |took|
        invariant AsGranted(took, granted)
        decreases QueueLength(d)
      {
        var ok := Grant(granted, n);
        ghost var before := took;
        took := PollOne(d, ok, was, took);
        AsGrantedOneMore(before, granted, took);
        n := n + 1;
        if ok {
          used := used + 1;
        }
      }
    }

    // snull_poll: up to the quota of frames, newest first; dropped frames do not count
    // against the quota. `took` lists what was taken off the queue; the i-th of them finds
    // a socket buffer unless `granted` says otherwise.
    method Poll(d: nat, budget: nat, quota: nat, granted: seq<bool>)
      returns (more: bool, used: nat, ghost took: seq<Outcome>)
      requires napi && Valid() && d < 2 && Device(d).pollScheduled
      modifies this
      ensures Valid() && Drained(old(Account()), Account(), d, took) && owner == old(owner)
      ensures used == Device(d).rxPackets - old(Device(d)).rxPackets <= Min(budget, quota)
      ensures more <==> QueueLength(d) > 0
      ensures more ==> used == Min(budget, quota)
      ensures more <==> Device(d).pollScheduled
      ensures forall i :: 0 <= i < |took| ==> took[i].delivered == (i >= |granted| || granted[i])
    {
      ghost var was := Account();
      used, took := Drain(d, Min(budget, quota), granted);
      more := FinishPoll(d, was, took);
    }
  }
}
