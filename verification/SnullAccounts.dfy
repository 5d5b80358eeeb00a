// What is owed to the receiver of frames: how its interrupt and polling state, its counters
// and the frames sent, handled and waiting go together (ldd/snull/snull.c).
module SnullAccounts {
  import opened Common

  // What became of a frame taken off a receive queue.
  datatype Outcome = Outcome(frame: seq<byte>, delivered: bool)

  function Frames(os: seq<Outcome>): (fs: seq<seq<byte>>)
    ensures |fs| == |os|
  {
    if os == [] then [] else Frames(os[..|os| - 1]) + [os[|os| - 1].frame]
  }

  function Count(os: seq<Outcome>, delivered: bool): nat {
    if os == [] then 0 else
      Count(os[..|os| - 1], delivered) + (if os[|os| - 1].delivered == delivered then 1 else 0)
  }

  lemma {:induction false} CountsAddUp(os: seq<Outcome>)
    ensures Count(os, true) + Count(os, false) == |os|
  {
    if os != [] {
      CountsAddUp(os[..|os| - 1]);
    }
  }

  // One device as a receiver: interrupt and polling state, counters, and the frames sent
  // to it, taken off its queue so far, and waiting there (bottom of the queue first).
  datatype Receiver = Receiver(interrupting: bool, enabled: bool, scheduled: bool, packets: nat, dropped: nat,
                       sent: seq<seq<byte>>, handled: seq<Outcome>, waiting: seq<seq<byte>>)

  // Every frame sent is waiting or was handled, once; the counters say how. Without NAPI
  // nothing waits and frames are handled in order; with NAPI a frame that waits has
  // receive interrupts off and a poll due.
  ghost predicate SideOk(napi: bool, s: Receiver) {
    && !s.interrupting
    && multiset(s.sent) == multiset(Frames(s.handled)) + multiset(s.waiting)
    && |s.sent| == |s.handled| + |s.waiting|
    && s.packets == Count(s.handled, true) && s.dropped == Count(s.handled, false)
    && if napi then (s.scheduled <==> !s.enabled) && (s.waiting != [] ==> s.scheduled)
       else s.enabled && s.waiting == [] && Frames(s.handled) == s.sent
  }

  function SendTo(s: Receiver, frame: seq<byte>): Receiver {
    s.(sent := s.sent + [frame], waiting := s.waiting + [frame])
  }

  function HandleTop(s: Receiver, granted: bool): Receiver
    requires s.waiting != []
  {
    var n := |s.waiting| - 1;
    s.(waiting := s.waiting[..n], handled := s.handled + [Outcome(s.waiting[n], granted)],
       packets := s.packets + (if granted then 1 else 0), dropped := s.dropped + (if granted then 0 else 1))
  }

  function ArriveAt(napi: bool, s: Receiver, granted: bool): Receiver
    requires s.waiting != []
  {
    if !s.enabled then s
    else if napi then s.(enabled := false, scheduled := true)
    else HandleTop(s, granted)
  }

  lemma HandlingKeepsAccounts(s: Receiver, granted: bool)
    requires SideOk(true, s) && s.waiting != []
    ensures SideOk(true, HandleTop(s, granted))
  {
    var n := |s.waiting| - 1;
    var os := s.handled + [Outcome(s.waiting[n], granted)];
    assert os[..|os| - 1] == s.handled;
    assert s.waiting == s.waiting[..n] + [s.waiting[n]];
  }

  lemma RegularReception(s: Receiver, frame: seq<byte>, granted: bool)
    requires SideOk(false, s)
    ensures SideOk(false, ArriveAt(false, SendTo(s, frame), granted))
  {
    var os := s.handled + [Outcome(frame, granted)];
    assert os[..|os| - 1] == s.handled;
    assert [frame][..0] == [];
    assert SendTo(s, frame).waiting == [frame];
  }

  lemma NapiReception(s: Receiver, frame: seq<byte>, granted: bool)
    requires SideOk(true, s)
    ensures SideOk(true, ArriveAt(true, SendTo(s, frame), granted))
  {
    assert multiset(s.sent + [frame]) == multiset(s.sent) + multiset{frame};
    assert multiset(s.waiting + [frame]) == multiset(s.waiting) + multiset{frame};
  }

  lemma ReceptionKeepsAccounts(napi: bool, s: Receiver, frame: seq<byte>, granted: bool)
    requires SideOk(napi, s)
    ensures SideOk(napi, ArriveAt(napi, SendTo(s, frame), granted))
  {
    if napi { NapiReception(s, frame, granted); } else { RegularReception(s, frame, granted); }
  }

  lemma ArrivalOutcome(napi: bool, s: Receiver, frame: seq<byte>, granted: bool)
    requires SideOk(napi, s)
    ensures var t := ArriveAt(napi, SendTo(s, frame), granted);
            if napi then t.handled == s.handled && t.waiting == s.waiting + [frame] && t.scheduled && !t.enabled
            else t.handled == s.handled + [Outcome(frame, granted)]
  {
    if !napi { assert SendTo(s, frame).waiting == [frame]; }
  }

  // Does the i-th frame taken find a socket buffer? All do that are not said not to.
  predicate Grant(granted: seq<bool>, i: nat) {
    i >= |granted| || granted[i]
  }

  ghost predicate AsGranted(took: seq<Outcome>, granted: seq<bool>) {
    forall i :: 0 <= i < |took| ==> took[i].delivered == Grant(granted, i)
  }

  lemma AsGrantedOneMore(took: seq<Outcome>, granted: seq<bool>, more: seq<Outcome>)
    requires AsGranted(took, granted) && |more| == |took| + 1 && took <= more
    requires more[|took|].delivered == Grant(granted, |took|)
    ensures AsGranted(more, granted)
  {
  }

  // Polling has taken `took` off the queue, newest first, and nothing else has changed but
  // the interrupt state.
  ghost predicate Polled(was: Receiver, s: Receiver, took: seq<Outcome>) {
    && s.sent == was.sent && s.handled == was.handled + took
    && |took| <= |was.waiting| && s.waiting == was.waiting[..|was.waiting| - |took|]
    && forall i :: 0 <= i < |took| ==> took[i].frame == was.waiting[|was.waiting| - 1 - i]
  }

  lemma PolledOneMore(was: Receiver, s: Receiver, took: seq<Outcome>, granted: bool)
    requires Polled(was, s, took) && s.waiting != []
    ensures var o := Outcome(s.waiting[|s.waiting| - 1], granted);
            Polled(was, HandleTop(s, granted), took + [o])
  {
  }

  // --- Order ---

  // The frames handled, followed by those waiting, are the frames sent, in order.
  ghost predicate InOrder(s: Receiver) {
    Frames(s.handled) + s.waiting == s.sent
  }

  predicate AllAlike(frames: seq<seq<byte>>) {
    forall i :: 0 <= i < |frames| ==> frames[i] == frames[|frames| - 1]
  }

  lemma FramesOneMore(os: seq<Outcome>, o: Outcome)
    ensures Frames(os + [o]) == Frames(os) + [o.frame]
  {
    assert (os + [o])[..|os|] == os;
  }

  // Moving the last of a sequence to its front changes nothing exactly if all are alike.
  lemma {:induction false} MovedToFront(w: seq<seq<byte>>, i: nat)
    requires i < |w| && [w[|w| - 1]] + w[..|w| - 1] == w
    ensures w[i] == w[|w| - 1]
  {
    var front := [w[|w| - 1]] + w[..|w| - 1];
    if i > 0 {
      MovedToFront(w, i - 1);
      assert front[i] == w[i - 1];
    } else {
      assert front[0] == w[0];
    }
  }

  lemma Rotation(w: seq<seq<byte>>)
    requires w != []
    ensures [w[|w| - 1]] + w[..|w| - 1] == w <==> AllAlike(w)
  {
    if [w[|w| - 1]] + w[..|w| - 1] == w {
      forall i | 0 <= i < |w| ensures w[i] == w[|w| - 1] { MovedToFront(w, i); }
    }
  }

  // A frame sent leaves the order as it is.
  lemma SendingKeepsOrder(s: Receiver, frame: seq<byte>)
    ensures InOrder(SendTo(s, frame)) <==> InOrder(s)
  {
    var h := Frames(s.handled);
    assert h + (s.waiting + [frame]) == h + s.waiting + [frame];
    if InOrder(SendTo(s, frame)) {
      assert (h + s.waiting + [frame])[..|h + s.waiting|] == h + s.waiting;
      assert (s.sent + [frame])[..|s.sent|] == s.sent;
    }
  }

  lemma SamePrefix(h: seq<seq<byte>>, a: seq<seq<byte>>, b: seq<seq<byte>>)
    requires h + a == h + b
    ensures a == b
  {
    assert (h + a)[|h|..] == a && (h + b)[|h|..] == b;
  }

  // The newest frame handled first keeps it exactly if no different frame waits.
  lemma HandlingKeepsOrder(s: Receiver, granted: bool)
    requires InOrder(s) && s.waiting != []
    ensures InOrder(HandleTop(s, granted)) <==> AllAlike(s.waiting)
  {
    var h, w, n := Frames(s.handled), s.waiting, |s.waiting| - 1;
    FramesOneMore(s.handled, Outcome(w[n], granted));
    Rotation(w);
    assert h + [w[n]] + w[..n] == h + ([w[n]] + w[..n]);
    if InOrder(HandleTop(s, granted)) { SamePrefix(h, [w[n]] + w[..n], w); }
  }

  // The receiver after the first k frames of a poll.
  function Taken(was: Receiver, took: seq<Outcome>, k: nat): Receiver
    requires k <= |took| <= |was.waiting|
  {
    was.(handled := was.handled + took[..k], waiting := was.waiting[..|was.waiting| - k])
  }

  ghost predicate InOrderThroughout(was: Receiver, took: seq<Outcome>)
    requires |took| <= |was.waiting|
  {
    forall k :: 0 <= k <= |took| ==> InOrder(Taken(was, took, k))
  }

  lemma TakenNone(was: Receiver, took: seq<Outcome>)
    requires |took| <= |was.waiting|
    ensures Taken(was, took, 0) == was
  {
    assert was.handled + took[..0] == was.handled && was.waiting[..|was.waiting|] == was.waiting;
  }

  lemma TakenOneMore(was: Receiver, s: Receiver, took: seq<Outcome>, k: nat)
    requires Polled(was, s, took) && k < |took|
    ensures Taken(was, took, k).waiting != []
    ensures InOrder(HandleTop(Taken(was, took, k), took[k].delivered)) <==> InOrder(Taken(was, took, k + 1))
  {
    var t, u := Taken(was, took, k), Taken(was, took, k + 1);
    var next := HandleTop(t, took[k].delivered);
    assert u.handled == t.handled + [took[k]];
    assert next.handled == u.handled && next.waiting == u.waiting;
  }

  lemma AlikePrefix(w: seq<seq<byte>>, n: nat)
    requires AllAlike(w) && n <= |w|
    ensures AllAlike(w[..n])
  {
    forall i | 0 <= i < n ensures w[..n][i] == w[..n][n - 1] {
      assert w[i] == w[|w| - 1] && w[n - 1] == w[|w| - 1];
    }
  }

  lemma TakesInOrder(was: Receiver, s: Receiver, took: seq<Outcome>, k: nat)
    requires Polled(was, s, took) && k < |took| && InOrder(Taken(was, took, k))
    ensures InOrder(Taken(was, took, k + 1)) <==> AllAlike(Taken(was, took, k).waiting)
  {
    TakenOneMore(was, s, took, k);
    HandlingKeepsOrder(Taken(was, took, k), took[k].delivered);
  }

  lemma {:induction false} AlikeStaysInOrder(was: Receiver, s: Receiver, took: seq<Outcome>, k: nat)
    requires Polled(was, s, took) && InOrder(was) && AllAlike(was.waiting) && k <= |took|
    ensures InOrder(Taken(was, took, k))
  {
    if k == 0 {
      TakenNone(was, took);
    } else {
      AlikeStaysInOrder(was, s, took, k - 1);
      AlikePrefix(was.waiting, |was.waiting| - (k - 1));
      TakesInOrder(was, s, took, k - 1);
    }
  }

  lemma NoneTaken(was: Receiver)
    requires InOrder(was)
    ensures InOrderThroughout(was, [])
  {
    TakenNone(was, []);
    forall k | 0 <= k <= 0 ensures InOrder(Taken(was, [], k)) { assert k == 0; }
  }

  lemma AlikeIsInOrder(was: Receiver, s: Receiver, took: seq<Outcome>)
    requires Polled(was, s, took) && InOrder(was) && AllAlike(was.waiting)
    ensures InOrderThroughout(was, took)
  {
    forall k | 0 <= k <= |took| ensures InOrder(Taken(was, took, k)) { AlikeStaysInOrder(was, s, took, k); }
  }

  lemma MixedIsNotInOrder(was: Receiver, s: Receiver, took: seq<Outcome>)
    requires Polled(was, s, took) && InOrder(was) && took != [] && !AllAlike(was.waiting)
    ensures !InOrderThroughout(was, took)
  {
    TakenNone(was, took);
    TakesInOrder(was, s, took, 0);
    assert !InOrder(Taken(was, took, 1));
  }

  // A poll handles frames in the order sent if and only if it takes none, or no two
  // different ones are waiting when it starts.
  lemma PollKeepsOrder(was: Receiver, s: Receiver, took: seq<Outcome>)
    requires Polled(was, s, took) && InOrder(was)
    ensures InOrderThroughout(was, took) <==> took == [] || AllAlike(was.waiting)
  {
    if took == [] { NoneTaken(was); }
    else if AllAlike(was.waiting) { AlikeIsInOrder(was, s, took); }
    else { MixedIsNotInOrder(was, s, took); }
  }
}
