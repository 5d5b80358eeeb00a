// The scull pipe device: a circular buffer with one slot always left free
// (ldd/scull/pipe.c). Pointers are modelled as offsets from `dev->buffer`.
module ScullPipe {
  import opened Common

  // spacefree() evaluated on one value of rp and one of wp.
  function FreeAt(size: nat, rp: nat, wp: nat): int
    requires rp < size && wp < size
  {
    if rp == wp then size - 1 else (rp + size - wp) % size - 1
  }

  // The buffer and its two pointers, as a value. The byte stream it stands for is Contents().
  datatype Ring = Ring(buf: seq<byte>, rp: nat, wp: nat) {
    ghost predicate Valid() {
      rp < |buf| && wp < |buf|
    }

    ghost function Contents(): seq<byte>
      requires Valid()
    {
      if rp <= wp then buf[rp..wp] else buf[rp..] + buf[..wp]
    }

    function SpaceFree(): int
      requires Valid()
    {
      FreeAt(|buf|, rp, wp)
    }

    // The pointer update shared by both ends: advance, then wrap at the end of the buffer.
    function Advance(p: nat, n: nat): nat {
      if p + n == |buf| then 0 else p + n
    }

    function Take(n: nat): Ring {
      this.(rp := Advance(rp, n))
    }

    // Bytes copied in from wp on without moving wp: what a copy that faults leaves behind.
    function Scribble(bytes: seq<byte>): Ring
      requires wp + |bytes| <= |buf|
    {
      this.(buf := Overlay(buf, wp, bytes))
    }

    function Put(bytes: seq<byte>): Ring
      requires wp + |bytes| <= |buf|
    {
      Scribble(bytes).(wp := Advance(wp, |bytes|))
    }

    // How much one read may take: what is stored, up to the end of the buffer.
    ghost function ReadRoom(): nat
      requires Valid()
    {
      Min(|Contents()|, |buf| - rp)
    }

    // How much one write may store: all but one slot, up to the end of the buffer.
    ghost function WriteRoom(): nat
      requires Valid()
    {
      Min(|buf| - 1 - |Contents()|, |buf| - wp)
    }
  }

  lemma SpaceFreeCountsSlots(r: Ring)
    requires r.Valid()
    ensures r.SpaceFree() == |r.buf| - 1 - |r.Contents()|
    ensures r.rp == r.wp <==> r.Contents() == []
  {
    if r.rp > r.wp {
      DigitsUnique(|r.buf|, 1, r.rp - r.wp);
    } else if r.rp < r.wp {
      DigitsUnique(|r.buf|, 0, r.rp + |r.buf| - r.wp);
    }
  }

  lemma TakeDropsOldest(r: Ring, n: nat)
    requires r.Valid() && n <= r.ReadRoom()
    ensures r.Take(n).Valid()
    ensures r.Contents() == r.buf[r.rp..r.rp + n] + r.Take(n).Contents()
  {
  }

  lemma PutAppends(r: Ring, bytes: seq<byte>)
    requires r.Valid() && |bytes| <= r.WriteRoom()
    ensures r.Put(bytes).Valid()
    ensures r.Put(bytes).Contents() == r.Contents() + bytes
  {
    var b, e := r.Scribble(bytes).buf, r.wp + |bytes|;
    assert b[r.wp..e] == bytes;
    if r.rp <= r.wp {
      assert b[r.rp..r.wp] == r.buf[r.rp..r.wp];
      assert b[r.rp..e] == b[r.rp..r.wp] + b[r.wp..e];
    } else {
      assert b[..r.wp] == r.buf[..r.wp];
      assert b[r.rp..] == r.buf[r.rp..];
      assert b[..e] == b[..r.wp] + b[r.wp..e];
    }
  }

  lemma ScribbleIsInvisible(r: Ring, bytes: seq<byte>)
    requires r.Valid() && |bytes| <= r.WriteRoom()
    ensures r.Scribble(bytes).Valid()
    ensures r.Scribble(bytes).Contents() == r.Contents()
  {
  }

  // A read or a write with something to do always does something.
  lemma RoomIsPositive(r: Ring)
    requires r.Valid()
    ensures r.ReadRoom() > 0 <==> r.rp != r.wp
    ensures r.WriteRoom() > 0 <==> r.SpaceFree() > 0
    ensures r.SpaceFree() >= 0
  {
    SpaceFreeCountsSlots(r);
  }

  lemma SliceOfPrefix<T>(s: seq<T>, k: nat, i: nat, j: nat)
    requires i <= j <= k <= |s|
    ensures s[..k][i..j] == s[i..j]
  {
  }

  datatype ReadResult = NothingToRead | ReadFault | Delivered(bytes: seq<byte>)
  datatype WriteResult = NoSpace | WriteFault | Accepted(count: nat)

  class Pipe {
    var buffer: array?<byte>
    var buffersize: nat
    var end: nat
    var rp: nat
    var wp: nat
    var nreaders: nat
    var nwriters: nat

    constructor ()
      ensures buffer == null && nreaders == nwriters == 0
    {
      buffer, buffersize, end, rp, wp, nreaders, nwriters := null, 0, 0, 0, 0, 0, 0;
    }

    // Between an open and the matching release the pointers are in bounds.
    ghost predicate Valid()
      reads this
    {
      buffer != null && 0 < buffersize <= buffer.Length && end == buffersize && rp < end && wp < end
    }

    ghost predicate Counted()
      reads this
    {
      nreaders + nwriters > 0 ==> buffer != null
    }

    ghost function Value(): Ring
      requires Valid()
      reads this, buffer
    {
      Ring(buffer[..buffersize], rp, wp)
    }

    // `size` is the module parameter scull_p_buffer, read again on every open;
    // `granted` says whether kmalloc succeeds.
    method Open(forRead: bool, forWrite: bool, size: nat, granted: bool) returns (ok: bool)
      requires Counted()
      modifies this
      ensures Counted()
      ensures ok == (old(buffer) != null || granted)
      ensures !ok ==> unchanged(this)
      ensures ok && old(buffer) == null ==> buffer != null && fresh(buffer) && buffer.Length == size
      ensures ok && old(buffer) != null ==> buffer == old(buffer)
      ensures ok ==> buffersize == end == size && rp == wp == 0
      ensures ok ==> nreaders == old(nreaders) + (if forRead then 1 else 0)
      ensures ok ==> nwriters == old(nwriters) + (if forWrite then 1 else 0)
      ensures ok ==> (Valid() <==> 0 < size <= buffer.Length)
      ensures ok && Valid() ==> Value().Contents() == []
    {
      if buffer == null {
        if !granted {
          return false;
        }
        buffer := new byte[size];
      }
      buffersize := size;
      end := buffersize;
      rp, wp := 0, 0;
      if forRead { nreaders := nreaders + 1; }
      if forWrite { nwriters := nwriters + 1; }
      ok := true;
    }

    method Release(forRead: bool, forWrite: bool)
      requires Counted()
      requires forRead ==> nreaders > 0
      requires forWrite ==> nwriters > 0
      modifies this
      ensures Counted()
      ensures nreaders == old(nreaders) - (if forRead then 1 else 0)
      ensures nwriters == old(nwriters) - (if forWrite then 1 else 0)
      ensures buffer == if nreaders + nwriters == 0 then null else old(buffer)
      ensures rp == old(rp) && wp == old(wp) && end == old(end) && buffersize == old(buffersize)
    {
      if forRead { nreaders := nreaders - 1; }
      if forWrite { nwriters := nwriters - 1; }
      if nreaders + nwriters == 0 {
        buffer := null;
      }
    }

    method SpaceFree() returns (n: int)
      requires Valid()
      ensures n == Value().SpaceFree()
      ensures n == buffersize - 1 - |Value().Contents()|
    {
      SpaceFreeCountsSlots(Value());
      if rp == wp {
        return buffersize - 1;
      }
      n := (rp + buffersize - wp) % buffersize - 1;
    }

    // copy_to_user from rp on, and the move of rp past what was copied.
    method CopyOut(n: nat) returns (bytes: seq<byte>)
      requires Valid() && n <= Value().ReadRoom()
      modifies this`rp
      ensures Valid() && Value() == old(Value()).Take(n) && |bytes| == n
      ensures old(Value().Contents()) == bytes + Value().Contents()
    {
      ghost var was := Value();
      TakeDropsOldest(was, n);
      SliceOfPrefix(buffer[..], buffersize, rp, rp + n);
      bytes := buffer[rp..rp + n];
      rp := rp + n;
      if rp == end {
        rp := 0;
      }
      assert Value() == was.Take(n);
    }

    // One pass through scull_p_read with the semaphore held: either the buffer is
    // empty and the caller has to wait, or as much as is contiguous is delivered.
    method Read(count: nat, fault: bool) returns (r: ReadResult)
      requires Valid()
      modifies this`rp
      ensures Valid()
      ensures r.NothingToRead? <==> old(Value().Contents()) == []
      ensures r.ReadFault? <==> old(Value().Contents()) != [] && fault && count > 0
      ensures !r.Delivered? ==> Value() == old(Value())
      ensures r.Delivered? ==> |r.bytes| == Min(count, old(Value().ReadRoom()))
      ensures r.Delivered? ==> |r.bytes| <= count && (count > 0 ==> |r.bytes| > 0)
      ensures r.Delivered? && |r.bytes| < count ==> Value().Contents() == [] || rp == 0
      ensures r.Delivered? ==> old(Value().Contents()) == r.bytes + Value().Contents()
      ensures r.Delivered? ==> Value() == old(Value()).Take(|r.bytes|)
    {
      if rp == wp {
        return NothingToRead;
      }
      ghost var was := Value();
      SpaceFreeCountsSlots(was);
      var n := count;
      if wp > rp {
        n := Min(n, wp - rp);
      } else {
        n := Min(n, end - rp);
      }
      if fault && n > 0 {
        return ReadFault;
      }
      assert n == Min(count, was.ReadRoom());
      var bytes := CopyOut(n);
      r := Delivered(bytes);
    }

    // copy_from_user into the buffer at wp.
    method CopyIn(bytes: seq<byte>)
      requires Valid() && wp + |bytes| <= end
      modifies buffer
      ensures Valid() && Value() == old(Value()).Scribble(bytes)
    {
      var b, at := buffer, wp;
      forall i | 0 <= i < |bytes| {
        b[at + i] := bytes[i];
      }
    }

    // copy_from_user that faults: the n bytes at wp are then anything.
    method FaultIn(n: nat)
      requires Valid() && n <= Value().WriteRoom()
      modifies buffer
      ensures Valid() && Value().Contents() == old(Value().Contents())
    {
      assert |seq(n, _ => 0 as byte)| == n;
      var left: seq<byte> :| |left| == n;
      ScribbleIsInvisible(Value(), left);
      CopyIn(left);
    }

    // copy_from_user from wp on, and the move of wp past what was copied.
    method StoreIn(bytes: seq<byte>)
      requires Valid() && |bytes| <= Value().WriteRoom()
      modifies this`wp, buffer
      ensures Valid() && Value() == old(Value()).Put(bytes)
      ensures Value().Contents() == old(Value().Contents()) + bytes
    {
      ghost var was := Value();
      PutAppends(was, bytes);
      CopyIn(bytes);
      wp := wp + |bytes|;
      if wp == end {
        wp := 0;
      }
      assert Value() == was.Put(bytes);
    }

    // One pass through scull_p_write with the semaphore held. `fault` is the
    // byte at which copy_from_user faults, if there is one; what it leaves behind wp then
    // is unspecified.
    method Write(data: seq<byte>, fault: Option<nat>) returns (r: WriteResult)
      requires Valid()
      modifies this`wp, buffer
      ensures Valid()
      ensures r.NoSpace? <==> |old(Value().Contents())| == buffersize - 1
      ensures r.NoSpace? ==> Value() == old(Value())
      ensures r.WriteFault? <==> |old(Value().Contents())| < buffersize - 1
                                 && fault.Some? && fault.value < Min(|data|, old(Value().WriteRoom()))
      ensures r.WriteFault? ==> wp == old(wp) && Value().Contents() == old(Value().Contents())
      ensures r.Accepted? ==> r.count == Min(|data|, old(Value().WriteRoom()))
      ensures r.Accepted? ==> r.count <= |data| && (data != [] ==> r.count > 0)
      ensures r.Accepted? && r.count < |data| ==> |Value().Contents()| == buffersize - 1 || wp == 0
      ensures r.Accepted? ==> Value().Contents() == old(Value().Contents()) + data[..r.count]
      ensures r.Accepted? ==> Value() == old(Value()).Put(data[..r.count])
    {
      ghost var was := Value();
      RoomIsPositive(was);
      var free := SpaceFree();
      if free == 0 {
        return NoSpace;
      }
      var n := Min(|data|, free);
      if wp >= rp {
        n := Min(n, end - wp);
      } else {
        n := Min(n, rp - wp - 1);
      }
      assert n == Min(|data|, was.WriteRoom());
      if fault.Some? && fault.value < n {
        FaultIn(n);
        return WriteFault;
      }
      StoreIn(data[..n]);
      r := Accepted(n);
    }
  }

  // Opening again throws the stored bytes away: an open leaves the stream as it was
  // if and only if the pipe was empty at that moment.
  lemma OpenKeepsStreamIffEmpty(r: Ring)
    requires r.Valid()
    ensures r.(rp := 0, wp := 0).Contents() == r.Contents() <==> r.rp == r.wp
  {
    SpaceFreeCountsSlots(r);
  }
}
