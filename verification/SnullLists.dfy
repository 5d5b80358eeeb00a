// The packet lists of the two snull devices: two pools and two receive queues, all
// threaded through the one `next` field of struct snull_packet, and all pushed and popped
// at the head (ldd/snull/snull.c).
module SnullLists {
  type Pkt = int
  const NULL: Pkt := 0

  // Lists 0 and 1 are the pools of device 0 and 1, lists 2 and 3 their receive queues.
  const LISTS := 4

  function Pool(dev: nat): nat { dev }
  function Queue(dev: nat): nat { dev + 2 }
  function Peer(dev: nat): nat
    requires dev < 2
  {
    1 - dev
  }

  // The device whose packets a list may hold: its own in a pool, the peer's in a queue.
  function OwnerOf(list: nat): nat
    requires list < LISTS
  {
    if list < 2 then list else 3 - list
  }

  // Where a packet is: at some height in a list, or in the hands of running code.
  datatype Place = Slot(list: nat, height: nat) | Held

  // The lists bottom first: the head pointer is at the end, `next` points one place down.
  datatype Lists = Lists(next: map<Pkt, Pkt>, stack: seq<seq<Pkt>>, place: map<Pkt, Place>, owner: map<Pkt, nat>) {

    function Head(list: nat): Pkt
      requires list < |stack|
    {
      if stack[list] == [] then NULL else stack[list][|stack[list]| - 1]
    }

    function Push(list: nat, p: Pkt): Lists
      requires list < |stack|
    {
      this.(next := next[p := Head(list)],
            stack := stack[list := stack[list] + [p]],
            place := place[p := Slot(list, |stack[list]|)])
    }

    function Pop(list: nat): Lists
      requires list < |stack| && stack[list] != []
    {
      var n := |stack[list]| - 1;
      this.(stack := stack[list := stack[list][..n]], place := place[stack[list][n] := Held])
    }
  }

  predicate Linked(ls: Lists, list: nat, height: nat)
    requires list < |ls.stack| && height < |ls.stack[list]|
  {
    var p := ls.stack[list][height];
    && p != NULL && p in ls.next && p in ls.place
    && ls.next[p] == (if height == 0 then NULL else ls.stack[list][height - 1])
    && ls.place[p] == Slot(list, height)
  }

  predicate Accounted(ls: Lists, held: set<Pkt>, p: Pkt)
    requires p in ls.place && p in ls.owner
  {
    match ls.place[p]
    case Slot(list, height) =>
      && list < |ls.stack| == LISTS && height < |ls.stack[list]|
      && ls.stack[list][height] == p && ls.owner[p] == OwnerOf(list)
    case Held => p in held
  }

  // Every packet is in exactly one place, in a list it may be in; `held` are those in hand.
  ghost predicate Conserved(ls: Lists, held: set<Pkt>) {
    && |ls.stack| == LISTS && NULL !in ls.place
    && ls.next.Keys == ls.place.Keys == ls.owner.Keys
    && (forall list, height :: 0 <= list < LISTS && 0 <= height < |ls.stack[list]| ==> Linked(ls, list, height))
    && (forall p :: p in ls.place ==> Accounted(ls, held, p))
    && (forall p :: p in held ==> p in ls.place && ls.place[p] == Held)
  }

  ghost function Members(s: seq<Pkt>): set<Pkt> {
    set p | p in s
  }

  lemma PushConserves(ls: Lists, held: set<Pkt>, list: nat, p: Pkt)
    requires Conserved(ls, held) && list < LISTS && p in held && ls.owner[p] == OwnerOf(list)
    ensures Conserved(ls.Push(list, p), held - {p})
  {
    var t := ls.Push(list, p);
    forall i, h | 0 <= i < LISTS && 0 <= h < |t.stack[i]| ensures Linked(t, i, h) {
      if i != list || h < |ls.stack[i]| { assert Linked(ls, i, h); }
    }
    forall q | q in t.place ensures Accounted(t, held - {p}, q) {
      assert Accounted(ls, held, q);
    }
    if ls.stack[list] != [] { assert Linked(ls, list, |ls.stack[list]| - 1); }
  }

  lemma PushMovesOneHead(ls: Lists, list: nat, p: Pkt)
    requires list < |ls.stack| == LISTS
    ensures var t := ls.Push(list, p);
            && t.Head(0) == (if list == 0 then p else ls.Head(0)) && t.Head(1) == (if list == 1 then p else ls.Head(1))
            && t.Head(2) == (if list == 2 then p else ls.Head(2)) && t.Head(3) == (if list == 3 then p else ls.Head(3))
  {
  }

  lemma PopConserves(ls: Lists, held: set<Pkt>, list: nat)
    requires Conserved(ls, held) && list < LISTS && ls.stack[list] != []
    ensures var p := ls.Head(list);
            && Conserved(ls.Pop(list), held + {p})
            && p in ls.next && ls.Pop(list).Head(list) == ls.next[p]
            && p !in held && ls.owner[p] == OwnerOf(list)
  {
    var n := |ls.stack[list]| - 1;
    var p, t := ls.stack[list][n], ls.Pop(list);
    assert Linked(ls, list, n) && Accounted(ls, held, p);
    forall i, h | 0 <= i < LISTS && 0 <= h < |t.stack[i]| ensures Linked(t, i, h) {
      assert Linked(ls, i, h);
    }
    forall q | q in t.place ensures Accounted(t, held + {p}, q) {
      assert Accounted(ls, held, q);
    }
  }

  lemma HeadIsNull(ls: Lists, held: set<Pkt>, list: nat)
    requires Conserved(ls, held) && list < LISTS
    ensures ls.Head(list) == NULL <==> ls.stack[list] == []
  {
    if ls.stack[list] != [] { assert Linked(ls, list, |ls.stack[list]| - 1); }
  }

  // A fresh packet, in the hands of the code that allocated it.
  lemma AddConserves(ls: Lists, held: set<Pkt>, p: Pkt, dev: nat)
    requires Conserved(ls, held) && p != NULL && p !in ls.place
    ensures Conserved(ls.(next := ls.next[p := NULL], place := ls.place[p := Held], owner := ls.owner[p := dev]),
                      held + {p})
  {
    var t := ls.(next := ls.next[p := NULL], place := ls.place[p := Held], owner := ls.owner[p := dev]);
    forall i, h | 0 <= i < LISTS && 0 <= h < |t.stack[i]| ensures Linked(t, i, h) {
      assert Linked(ls, i, h);
    }
    forall q | q in t.place ensures Accounted(t, held + {p}, q) {
      if q != p { assert Accounted(ls, held, q); }
    }
  }

  lemma MemberFacts(ls: Lists, held: set<Pkt>, list: nat, p: Pkt)
    requires Conserved(ls, held) && list < LISTS && p in ls.stack[list]
    ensures p in ls.place && ls.place[p].Slot? && ls.place[p].list == list
    ensures p in ls.owner && ls.owner[p] == OwnerOf(list) && p !in held
  {
    var h :| 0 <= h < |ls.stack[list]| && ls.stack[list][h] == p;
    assert Linked(ls, list, h) && Accounted(ls, held, p);
  }

  lemma WhereaboutsOf(ls: Lists, held: set<Pkt>, p: Pkt)
    requires Conserved(ls, held) && p in ls.owner && ls.owner[p] < 2
    ensures p in held || p in ls.stack[Pool(ls.owner[p])] || p in ls.stack[Queue(Peer(ls.owner[p]))]
  {
    assert Accounted(ls, held, p);
  }

  lemma {:induction false} DistinctCount(s: seq<Pkt>)
    requires forall i, j :: 0 <= i < j < |s| ==> s[i] != s[j]
    ensures |Members(s)| == |s|
  {
    if s != [] {
      var n := |s| - 1;
      DistinctCount(s[..n]);
      assert Members(s) == Members(s[..n]) + {s[n]};
    }
  }

  lemma NoneTwice(ls: Lists, held: set<Pkt>, list: nat)
    requires Conserved(ls, held) && list < LISTS
    ensures |Members(ls.stack[list])| == |ls.stack[list]|
  {
    forall i, j | 0 <= i < j < |ls.stack[list]| ensures ls.stack[list][i] != ls.stack[list][j] {
      assert Linked(ls, list, i) && Linked(ls, list, j);
    }
    DistinctCount(ls.stack[list]);
  }

  // Conservation in terms of sets: a device's packets are those in its pool, those in the
  // peer's receive queue and those in hand, with no overlap and none twice in a list.
  lemma PacketsArePartitioned(ls: Lists, held: set<Pkt>, dev: nat)
    requires Conserved(ls, held) && dev < 2
    ensures var mine := set p | p in ls.owner && ls.owner[p] == dev;
            var pool, queue := Members(ls.stack[Pool(dev)]), Members(ls.stack[Queue(Peer(dev))]);
            && mine == pool + queue + (held * mine)
            && pool !! queue && pool !! held && queue !! held
    ensures |Members(ls.stack[Pool(dev)])| == |ls.stack[Pool(dev)]|
    ensures |Members(ls.stack[Queue(Peer(dev))])| == |ls.stack[Queue(Peer(dev))]|
  {
    var mine := set p | p in ls.owner && ls.owner[p] == dev;
    var a, b := Pool(dev), Queue(Peer(dev));
    forall p | p in ls.stack[a] ensures p in mine && ls.place[p].Slot? && ls.place[p].list == a && p !in held {
      MemberFacts(ls, held, a, p);
    }
    forall p | p in ls.stack[b] ensures p in mine && ls.place[p].Slot? && ls.place[p].list == b && p !in held {
      MemberFacts(ls, held, b, p);
    }
    forall p | p in mine ensures p in held || p in ls.stack[a] || p in ls.stack[b] { WhereaboutsOf(ls, held, p); }
    NoneTwice(ls, held, a);
    NoneTwice(ls, held, b);
  }

  ghost function Owned(owner: map<Pkt, nat>, dev: nat): set<Pkt> {
    set p | p in owner && owner[p] == dev
  }

  // The two lengths add up to the packets the device has been given.
  lemma PacketsAddUp(ls: Lists, dev: nat)
    requires Conserved(ls, {}) && dev < 2
    ensures |ls.stack[Pool(dev)]| + |ls.stack[Queue(Peer(dev))]| == |Owned(ls.owner, dev)|
  {
    PacketsArePartitioned(ls, {}, dev);
    var pool, queue := Members(ls.stack[Pool(dev)]), Members(ls.stack[Queue(Peer(dev))]);
    assert Owned(ls.owner, dev) == pool + queue;
  }

  predicate Absent(stack: seq<seq<Pkt>>, p: Pkt) {
    forall i, h :: 0 <= i < |stack| && 0 <= h < |stack[i]| ==> stack[i][h] != p
  }

  // A packet not seen before joins the pool of its device.
  lemma NewPacket(ls: Lists, p: Pkt, d: nat)
    requires Conserved(ls, {}) && p != NULL && p !in ls.next && d < 2
    ensures Conserved(ls.(owner := ls.owner[p := d]).Push(Pool(d), p), {})
    ensures Absent(ls.stack, p)
  {
    AddConserves(ls, {}, p, d);
    var u := ls.(next := ls.next[p := NULL], place := ls.place[p := Held], owner := ls.owner[p := d]);
    PushConserves(u, {p}, Pool(d), p);
    assert u.Push(Pool(d), p) == ls.(owner := ls.owner[p := d]).Push(Pool(d), p);
    assert {p} - {p} == {};
    forall i, h | 0 <= i < LISTS && 0 <= h < |ls.stack[i]| ensures ls.stack[i][h] != p {
      assert Linked(ls, i, h);
    }
  }
}
