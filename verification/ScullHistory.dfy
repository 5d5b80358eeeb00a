// A whole run of the scull device as its users see it (ldd/scull/main.c): the replies to
// reads and writes are those of a sparse map of bytes that knows nothing of quanta.
module ScullHistory {
  import opened Common
  import opened SparseStore
  import opened ScullDevice

  datatype Op =
    | OpWrite(pos: nat, buf: seq<byte>, fault: Option<nat>, granted: nat)
    | OpRead(pos: nat, count: nat, unwritable: bool)
    | OpTrim(quantum: nat, qset: nat)     // an open for writing only

  datatype Reply = WriteReply(wrote: WriteResult) | ReadReply(read: ReadResult) | TrimReply

  // What the users can know: the bytes written since the last trim and not spoilt by a
  // write that faulted, and the size.
  datatype View = View(bytes: imap<nat, byte>, size: nat) {
    ghost function Laid(pos: nat, data: seq<byte>): View {
      this.(bytes := imap p: nat | p in bytes || pos <= p < pos + |data| ::
                       if pos <= p < pos + |data| then data[p - pos] else bytes[p])
    }

    // A write of |data| bytes that faulted after n: how far past them it reached in its
    // quantum, and what it left there, nobody can tell.
    ghost function Spoilt(pos: nat, data: seq<byte>, n: nat): View
      requires n <= |data|
    {
      this.(bytes := imap p: nat | (p in bytes && !(pos + n <= p < pos + |data|)) || pos <= p < pos + n ::
                       if pos <= p < pos + n then data[p - pos] else bytes[p])
    }

    // The view after an operation, from the operation and its reply alone.
    ghost function After(op: Op, reply: Reply): View {
      match (op, reply)
      case (OpWrite(pos, buf, _, _), WriteReply(Wrote(n))) =>
        if n <= |buf| then Laid(pos, buf[..n]).(size := if size < pos + n then pos + n else size) else this
      case (OpWrite(pos, buf, _, _), WriteReply(WriteFault(n))) =>
        if n <= |buf| then Spoilt(pos, buf, n) else this
      case (OpTrim(_, _), _) => View(imap[], 0)
      case _ => this
    }

    // A reply the view allows: a write is cut short but not refused for nothing, a read
    // returns the bytes known, never past the size, and something where a byte is known.
    ghost predicate Allows(op: Op, reply: Reply) {
      match (op, reply)
      case (OpWrite(pos, buf, fault, granted), WriteReply(r)) =>
        (match r
         case Wrote(n) => n <= |buf| && (buf != [] ==> n > 0)
         case WriteFault(n) => fault == Some(n) && n < |buf|
         case NoMemory => pos !in bytes && granted < pos + 3)
      case (OpRead(pos, count, fault), ReadReply(r)) =>
        (match r
         case ReadFault => fault && count > 0 && pos < size
         case Returned(data) =>
           && |data| <= count
           && (forall i :: 0 <= i < |data| ==> pos + i < size && (pos + i in bytes ==> data[i] == bytes[pos + i]))
           && (count > 0 && pos < size && pos in bytes ==> data != []))
      case (OpTrim(_, _), TrimReply) => true
      case _ => false
    }
  }

  ghost function Replay(ops: seq<Op>, replies: seq<Reply>): View
    requires |ops| == |replies|
  {
    if ops == [] then View(imap[], 0) else
      var n := |ops| - 1;
      Replay(ops[..n], replies[..n]).After(ops[n], replies[n])
  }

  // The replies so far: each is one that the operations and replies before it allow.
  ghost predicate Explained(ops: seq<Op>, replies: seq<Reply>)
    requires |replies| <= |ops|
  {
    forall k :: 0 <= k < |replies| ==> Replay(ops[..k], replies[..k]).Allows(ops[k], replies[k])
  }

  // The store agrees with everything the users can know.
  ghost predicate Agrees(s: Store, v: View)
    requires s.Valid()
  {
    s.size == v.size && forall p: nat :: p in v.bytes ==> s.ByteAt(p) == Some(v.bytes[p])
  }

  lemma FaultAgrees(s: Store, v: View, pos: nat, base: seq<byte>, data: seq<byte>, n: nat, landed: seq<byte>)
    requires s.Valid() && Agrees(s, v) && s.Base(pos, base)
    requires n <= |landed| == s.Reach(pos, |data|) && data[..n] <= landed
    ensures Agrees(s.Patch(pos, base, landed), v.Spoilt(pos, data, n))
  {
    var t := s.Patch(pos, base, landed);
    forall p: nat | p in v.Spoilt(pos, data, n).bytes ensures t.ByteAt(p) == Some(v.Spoilt(pos, data, n).bytes[p]) {
      PatchChangesOnlyItsRange(s, pos, base, landed, p);
    }
  }

  lemma WriteAgrees(s: Store, v: View, pos: nat, base: seq<byte>, data: seq<byte>)
    requires s.Valid() && Agrees(s, v) && s.Base(pos, base)
    ensures var n := s.Reach(pos, |data|);
            Agrees(s.Write(pos, base, data),
                   v.Laid(pos, data[..n]).(size := if v.size < pos + n then pos + n else v.size))
  {
    var t, n := s.Write(pos, base, data), s.Reach(pos, |data|);
    forall p: nat | p in v.Laid(pos, data[..n]).bytes ensures t.ByteAt(p) == Some(v.Laid(pos, data[..n]).bytes[p]) {
      WriteChangesOnlyItsRange(s, pos, base, data, p);
    }
    WriteChangesOnlyItsRange(s, pos, base, data, pos);
  }

  lemma ReadAgrees(s: Store, v: View, pos: nat, count: nat, fault: bool, r: ReadResult)
    requires s.Valid() && Agrees(s, v)
    requires r == if fault && s.Read(pos, count) != [] then ReadFault else Returned(s.Read(pos, count))
    ensures v.Allows(OpRead(pos, count, fault), ReadReply(r))
  {
    ReadReturnsTheBytes(s, pos, count);
  }

  lemma OneMoreReply(ops: seq<Op>, replies: seq<Reply>, reply: Reply)
    requires |replies| < |ops| && Explained(ops, replies)
    requires Replay(ops[..|replies|], replies).Allows(ops[|replies|], reply)
    ensures Explained(ops, replies + [reply])
  {
    var rs := replies + [reply];
    forall k | 0 <= k < |rs| ensures Replay(ops[..k], rs[..k]).Allows(ops[k], rs[k]) {
      assert rs[..k] == replies[..k];
      assert replies[..|replies|] == replies;
    }
  }

  lemma ReplayOneMore(ops: seq<Op>, replies: seq<Reply>, reply: Reply)
    requires |replies| < |ops|
    ensures Replay(ops[..|replies| + 1], replies + [reply]) ==
            Replay(ops[..|replies|], replies).After(ops[|replies|], reply)
  {
    assert ops[..|replies| + 1][..|replies|] == ops[..|replies|];
    assert (replies + [reply])[..|replies|] == replies;
  }

  predicate Legal(op: Op) {
    op.OpTrim? ==> op.quantum > 0 && op.qset > 0
  }

  // What a run has done so far: `replies` to the first operations, and a store to match.
  ghost predicate Matches(d: Device, ops: seq<Op>, replies: seq<Reply>)
    reads d
  {
    && d.Valid() && |replies| <= |ops| && Explained(ops, replies)
    && Agrees(d.Value(), Replay(ops[..|replies|], replies))
  }

  method PerformWrite(d: Device, pos: nat, buf: seq<byte>, fault: Option<nat>, granted: nat, ghost v: View)
    returns (reply: Reply)
    requires d.Valid() && Agrees(d.Value(), v)
    modifies d
    ensures d.Valid() && v.Allows(OpWrite(pos, buf, fault, granted), reply)
    ensures Agrees(d.Value(), v.After(OpWrite(pos, buf, fault, granted), reply))
  {
    ghost var s := d.Value();
    var r;
    ghost var base, landed;
    r, base, landed := d.Write(pos, buf, fault, granted);
    if r.Wrote? {
      WriteAgrees(s, v, pos, base, buf);
    } else if r.WriteFault? {
      FaultAgrees(s, v, pos, base, buf, r.copied, landed);
    }
    reply := WriteReply(r);
  }

  method Perform(d: Device, op: Op, ghost v: View) returns (reply: Reply)
    requires d.Valid() && Agrees(d.Value(), v) && Legal(op)
    modifies d
    ensures d.Valid() && v.Allows(op, reply) && Agrees(d.Value(), v.After(op, reply))
  {
    match op
    case OpWrite(pos, buf, fault, granted) => reply := PerformWrite(d, pos, buf, fault, granted, v);
    case OpRead(pos, count, unwritable) =>
      var r := d.Read(pos, count, unwritable);
      ReadAgrees(d.Value(), v, pos, count, unwritable, r);
      reply := ReadReply(r);
    case OpTrim(quantum, qset) =>
      d.Trim(quantum, qset);
      reply := TrimReply;
  }

  // Any run of a new device, with allocations and copies failing as they please: every
  // reply is explained by the map of bytes alone, and nothing it allocated is out of reach.
  method Run(d: Device, ops: seq<Op>) returns (replies: seq<Reply>)
    requires d.Valid() && d.size == 0
    requires forall i :: 0 <= i < |ops| ==> Legal(ops[i])
    modifies d
    ensures |replies| == |ops| && Matches(d, ops, replies)
  {
    replies := [];
    var done := 0;
    while done < |ops|
      invariant 0 <= done == |replies| <= |ops| && Matches(d, ops, replies)
    {
      var reply := Perform(d, ops[done], Replay(ops[..done], replies));
      OneMoreReply(ops, replies, reply);
      ReplayOneMore(ops, replies, reply);
      replies := replies + [reply];
      done := done + 1;
    }
  }

  // --- What the explanation comes to ---

  // An operation that leaves the byte at p alone: no trim, no write that asks for it.
  predicate Spares(op: Op, p: nat) {
    match op
    case OpWrite(pos, buf, _, _) => !(pos <= p < pos + |buf|)
    case OpRead(_, _, _) => true
    case OpTrim(_, _) => false
  }

  lemma SparedIsKept(v: View, op: Op, reply: Reply, p: nat)
    requires p in v.bytes && Spares(op, p)
    ensures var w := v.After(op, reply);
            p in w.bytes && w.bytes[p] == v.bytes[p] && (p < v.size ==> p < w.size)
  {
  }

  lemma {:induction false} WrittenIsKnown(ops: seq<Op>, replies: seq<Reply>, i: nat, j: nat, p: nat, n: nat)
    requires |ops| == |replies| && i < j <= |ops| && ops[i].OpWrite? && n <= |ops[i].buf|
    requires replies[i] == WriteReply(Wrote(n)) || replies[i] == WriteReply(WriteFault(n))
    requires ops[i].pos <= p < ops[i].pos + n
    requires forall k :: i < k < j ==> Spares(ops[k], p)
    ensures var v := Replay(ops[..j], replies[..j]);
            && p in v.bytes && v.bytes[p] == ops[i].buf[p - ops[i].pos]
            && (replies[i].wrote.Wrote? ==> p < v.size)
    decreases j - i
  {
    assert ops[..j][..j - 1] == ops[..j - 1] && replies[..j][..j - 1] == replies[..j - 1];
    if j > i + 1 {
      WrittenIsKnown(ops, replies, i, j - 1, p, n);
      SparedIsKept(Replay(ops[..j - 1], replies[..j - 1]), ops[j - 1], replies[j - 1], p);
    }
  }

  // In a history that is explained, a read returns the byte last written, whether that
  // write went through or faulted later on, and does not return nothing where one was.
  lemma ReadsSeeTheLastWrite(ops: seq<Op>, replies: seq<Reply>, i: nat, j: nat, p: nat, n: nat)
    requires |ops| == |replies| && Explained(ops, replies) && i < j < |ops|
    requires ops[i].OpWrite? && ops[i].pos <= p < ops[i].pos + n
    requires replies[i] == WriteReply(Wrote(n)) || replies[i] == WriteReply(WriteFault(n))
    requires forall k :: i < k < j ==> match ops[k]
                                       case OpWrite(pos, buf, _, _) => !(pos <= p < pos + |buf|)
                                       case OpRead(_, _, _) => true
                                       case OpTrim(_, _) => false
    requires ops[j].OpRead? && replies[j].ReadReply? && replies[j].read.Returned?
    ensures n <= |ops[i].buf|
    ensures var data := replies[j].read.bytes;
            && (ops[j].pos <= p < ops[j].pos + |data| ==> data[p - ops[j].pos] == ops[i].buf[p - ops[i].pos])
            && (ops[j].pos == p && ops[j].count > 0 && replies[i].wrote.Wrote? ==> data != [])
  {
    assert Replay(ops[..i], replies[..i]).Allows(ops[i], replies[i]);
    forall k | i < k < j ensures Spares(ops[k], p) {}
    WrittenIsKnown(ops, replies, i, j, p, n);
    assert Replay(ops[..j], replies[..j]).Allows(ops[j], replies[j]);
  }

  // --- A buffer through the device and back ---

  ghost predicate Shows(d: Device, s: Store)
    reads d
  {
    d.Valid() && d.Value() == s
  }

  ghost predicate HasHole(s: Store, pos: nat, count: nat)
    requires s.Valid()
  {
    exists p: nat :: pos <= p < pos + count && s.ByteAt(p).None?
  }

  // s has become t by a loop of short writes that got through, or stopped for want of memory.
  ghost predicate Outcome(s: Store, t: Store, pos: nat, data: seq<byte>, ok: bool)
    requires s.Valid() && t.Valid()
  {
    if ok then Overwritten(s, t, pos, data) else HasHole(s, pos, |data|)
  }

  lemma HoleWasThere(s: Store, u: Store, pos: nat, first: seq<byte>, count: nat)
    requires Overwritten(s, u, pos, first) && HasHole(u, pos + |first|, count)
    ensures HasHole(s, pos, |first| + count)
  {
    var p: nat :| pos + |first| <= p < pos + |first| + count && u.ByteAt(p).None?;
    assert Written(s.ByteAt(p), u.ByteAt(p), pos, first, p);
  }

  lemma OutcomeInTwo(s: Store, u: Store, t: Store, pos: nat, first: seq<byte>, rest: seq<byte>, ok: bool)
    requires s.Valid() && u.Valid() && t.Valid()
    requires first != [] && Outcome(s, u, pos, first, true) && Outcome(u, t, pos + |first|, rest, ok)
    ensures Outcome(s, t, pos, first + rest, ok)
  {
    if ok { OverwrittenInTwo(s, u, t, pos, first, rest); } else { HoleWasThere(s, u, pos, first, |rest|); }
  }

  method WriteSome(d: Device, ghost s: Store, pos: nat, data: seq<byte>, granted: nat)
    returns (ok: bool, n: nat, ghost u: Store)
    requires Shows(d, s) && data != []
    modifies d`mem, d`data, d`l, d`size
    ensures !ok ==> HasHole(s, pos, |data|)
    ensures granted >= pos + 3 ==> ok
    ensures Shows(d, u) && n <= |data| && (ok ==> n > 0 && Outcome(s, u, pos, data[..n], true))
  {
    var r;
    ghost var base, landed;
    r, base, landed := d.Write(pos, data, None, granted);
    ok := r.Wrote?;
    n := if ok then r.count else 0;
    u := d.Value();
    if ok {
      OverwrittenByOne(s, pos, base, data);
    } else {
      assert s.ByteAt(pos).None?;
    }
  }

  // A caller that goes on writing what is left after each short write, `granted`
  // allocations succeeding in each.
  method WriteAll(d: Device, ghost s: Store, pos: nat, data: seq<byte>, granted: nat) returns (ok: bool, ghost t: Store)
    requires Shows(d, s)
    modifies d`mem, d`data, d`l, d`size
    ensures Shows(d, t) && Outcome(s, t, pos, data, ok)
    ensures granted >= pos + |data| + 3 ==> ok
    decreases |data|, 0
  {
    if data == [] {
      return true, s;
    }
    var n;
    ok, n, t := WriteSome(d, s, pos, data, granted);
    if ok {
      assert data == data[..n] + data[n..];
      ok, t := WriteRest(d, s, t, pos, data[..n], data[n..], n, granted);
    }
  }

  method WriteRest(d: Device, ghost s: Store, ghost u: Store, pos: nat, ghost first: seq<byte>, rest: seq<byte>,
                   n: nat, granted: nat)
    returns (ok: bool, ghost t: Store)
    requires Shows(d, u) && n == |first| > 0 && s.Valid() && Outcome(s, u, pos, first, true)
    modifies d`mem, d`data, d`l, d`size
    ensures Shows(d, t) && Outcome(s, t, pos, first + rest, ok)
    ensures granted >= pos + n + |rest| + 3 ==> ok
    decreases |rest|, 1
  {
    ok, t := WriteAll(d, u, pos + n, rest, granted);
    OutcomeInTwo(s, u, t, pos, first, rest, ok);
  }

  ghost predicate InFile(s: Store, pos: nat, data: seq<byte>)
    requires s.Valid()
  {
    Holds(s, pos, data) && (data != [] ==> pos + |data| <= s.size)
  }

  lemma ReadIsPart(s: Store, pos: nat, data: seq<byte>, bytes: seq<byte>)
    requires s.Valid() && data != [] && pos + |data| <= s.size && Holds(s, pos, data)
    requires bytes == s.Read(pos, |data|)
    ensures bytes != [] && bytes <= data && Holds(s, pos + |bytes|, data[|bytes|..])
  {
    ReadIsPrefix(s, pos, data);
    StillStored(s, pos, data, |bytes|);
  }

  method ReadSome(d: Device, ghost s: Store, pos: nat, count: nat, ghost data: seq<byte>)
    returns (bytes: seq<byte>, ghost missing: seq<byte>)
    requires Shows(d, s)
    requires |data| == count > 0 && InFile(s, pos, data)
    modifies d`mem, d`data, d`l
    ensures Shows(d, s) && bytes != [] && data == bytes + missing && InFile(s, pos + |bytes|, missing)
  {
    var r := d.Read(pos, count, false);
    bytes := r.bytes;
    ReadIsPart(s, pos, data, bytes);
    missing := data[|bytes|..];
  }

  // A caller that goes on reading what is missing after each short read.
  method ReadBack(d: Device, ghost s: Store, pos: nat, count: nat, ghost data: seq<byte>) returns (bytes: seq<byte>)
    requires Shows(d, s)
    requires |data| == count && InFile(s, pos, data)
    modifies d`mem, d`data, d`l
    ensures Shows(d, s) && bytes == data
    decreases count
  {
    if count == 0 {
      return [];
    }
    ghost var missing;
    bytes, missing := ReadSome(d, s, pos, count, data);
    var rest := ReadBack(d, s, pos + |bytes|, count - |bytes|, missing);
    bytes := bytes + rest;
  }

  // The buffer comes back, and every byte stored elsewhere is still there, whatever the
  // device held before. It fails only for want of memory: not over stored bytes, and not
  // with as many allocations granted as the last byte could need.
  method RoundTrip(d: Device, pos: nat, data: seq<byte>, granted: nat) returns (ok: bool, back: seq<byte>)
    requires d.Valid()
    modifies d`mem, d`data, d`l, d`size
    ensures d.Valid() && (ok ==> back == data)
    ensures granted >= pos + |data| + 3 ==> ok
    ensures !ok ==> HasHole(old(d.Value()), pos, |data|)
    ensures ok ==> forall p: nat :: !(pos <= p < pos + |data|) && old(d.Value()).ByteAt(p).Some? ==>
                     d.Value().ByteAt(p) == old(d.Value()).ByteAt(p)
  {
    ghost var was := d.Value();
    back := [];
    ghost var now;
    ok, now := WriteAll(d, was, pos, data, granted);
    if ok {
      OverwrittenIsHeld(was, now, pos, data);
      back := ReadBack(d, now, pos, |data|, data);
    }
  }
}
