// The interrupt device of the short driver (ldd/short/short.c): the page of text, the
// array of time values and the handlers that work on them.
module ShortDevice {
  import opened Common
  import opened ShortText

  datatype ReadResult = Blocks | Fault | Bytes(data: seq<byte>)

  // The page after one stamp record for each of the times.
  ghost function PutStamps(r: Ring, times: seq<Timeval>): (t: Ring)
    requires r.Valid()
    ensures t.Valid() && |t.page| == |r.page| && t.tail == r.tail
  {
    if times == [] then r else
      var front := PutStamps(r, times[..|times| - 1]);
      var record := StampRecord(times[|times| - 1]);
      PutKeepsValid(front, record);
      front.Put(record)
  }

  lemma PutStampsOneMore(r: Ring, times: seq<Timeval>, now: Timeval)
    requires r.Valid()
    ensures var t := PutStamps(r, times);
            t.head + RECORD <= |t.page| && PutStamps(r, times + [now]) == t.Put(StampRecord(now))
  {
    PutKeepsValid(PutStamps(r, times), StampRecord(now));
    assert (times + [now])[..|times|] == times;
  }

  lemma PutMovesText(unread: seq<byte>, text: seq<byte>, front: Ring, record: seq<byte>)
    requires front.Valid() && front.Unread() == unread + text
    requires |record| == RECORD && |unread| + |text| + RECORD < |front.page|
    ensures front.head + RECORD <= |front.page| && front.Put(record).Valid()
    ensures front.Put(record).Unread() == unread + (text + record)
  {
    PutAppends(front, record);
    ConcatAssociates(unread, text, record);
  }

  lemma PutStampsLast(r: Ring, times: seq<Timeval>, front: Ring, record: seq<byte>)
    requires r.Valid() && times != [] && record == StampRecord(times[|times| - 1])
    requires front == PutStamps(r, times[..|times| - 1])
    ensures front.head + RECORD <= |front.page| && PutStamps(r, times) == front.Put(record)
    ensures Stamps(times) == Stamps(times[..|times| - 1]) + record
  {
    PutKeepsValid(front, record);
  }

  // With room for them, the stamps follow the unread text.
  lemma {:induction false} PutStampsAppends(r: Ring, times: seq<Timeval>)
    requires r.Valid() && |r.Unread()| + RECORD * |times| < |r.page|
    ensures PutStamps(r, times).Unread() == r.Unread() + Stamps(times)
    decreases |times|
  {
    if times != [] {
      var n := |times| - 1;
      var front, record := PutStamps(r, times[..n]), StampRecord(times[n]);
      PutStampsAppends(r, times[..n]);
      PutStampsLast(r, times, front, record);
      PutMovesText(r.Unread(), Stamps(times[..n]), front, record);
    }
  }

  lemma PutStampsSplit(r: Ring, times: seq<Timeval>, k: nat)
    requires r.Valid() && k < |times|
    ensures PutStamps(PutStamps(r, times[..k]), [times[k]]) == PutStamps(r, times[..k + 1])
  {
    assert times[..k + 1] == times[..k] + [times[k]];
    PutStampsOneMore(r, times[..k], times[k]);
    PutStampsOneMore(PutStamps(r, times[..k]), [], times[k]);
    assert [] + [times[k]] == [times[k]];
  }

  // `done` records of the lap begun at `first` are printed, and `q` is what is left of it.
  ghost predicate LapLeft(first: Times, q: Times, done: nat, more: bool) {
    && first.Valid() && q.Valid() && q.tv == first.tv && q.head == first.head
    && done <= |first.Lap()|
    && (if more then done < |first.Lap()| && q.Lap() == first.Lap()[done..]
        else done == |first.Lap()| && q.tail == q.head)
  }

  lemma LapStep(first: Times, q: Times, done: nat)
    requires LapLeft(first, q, done, true)
    ensures first.Lap()[done] == q.tv[q.tail]
    ensures LapLeft(first, q.Pop(), done + 1, q.Pop().tail != q.head)
  {
    PopDropsOldest(q);
    PopDropsOldest(q.Pop());
    assert first.Lap()[done..][0] == first.Lap()[done];
    assert first.Lap()[done..][1..] == first.Lap()[done + 1..];
  }

  class Short {
    const page: array<byte>
    var head: nat
    var tail: nat
    const tv: array<Timeval>
    var tvHead: nat
    var tvTail: nat
    var count: nat            // short_wq_count
    var scheduled: bool       // the bottom half is queued

    ghost function Text(): Ring
      reads this, page
    {
      Ring(page[..], head, tail)
    }

    ghost function Saved(): Times
      reads this, tv
    {
      Times(tv[..], tvHead, tvTail)
    }

    ghost predicate Valid()
      reads this, page, tv
    {
      Text().Valid() && Saved().Valid()
    }

    constructor (page: array<byte>, tv: array<Timeval>)
      requires page.Length > 0 && page.Length % RECORD == 0 && tv.Length == NR_TIMEVAL
      ensures Valid() && Text().Unread() == [] && Saved().Pending() == []
      ensures this.page == page && this.tv == tv && count == 0 && !scheduled
    {
      this.page, this.tv := page, tv;
      head, tail, tvHead, tvTail, count, scheduled := 0, 0, 0, 0, 0, false;
    }

    method IncrBp(index: nat, delta: nat) returns (next: nat)
      ensures next == Text().Incr(index, delta)
    {
      var n := index + delta;
      next := if n >= page.Length then 0 else n;
    }

    method Store(record: seq<byte>)
      requires head + |record| <= page.Length
      modifies page
      ensures page[..] == Overlay(old(page[..]), head, record)
    {
      var i := 0;
      while i < |record|
        invariant 0 <= i <= |record|
        invariant forall k :: 0 <= k < page.Length ==>
                    page[k] == if head <= k < head + i then record[k - head] else old(page[k])
      {
        page[head + i] := record[i];
        i := i + 1;
      }
    }

    method PutRecord(record: seq<byte>)
      requires Valid() && |record| == RECORD
      modifies this`head, page
      ensures old(head) + RECORD <= page.Length && Text() == old(Text()).Put(record) && Valid()
    {
      PutKeepsValid(Text(), record);
      Store(record);
      head := IncrBp(head, RECORD);
    }

    // short_interrupt.
    method Interrupt(now: Timeval)
      requires Valid()
      modifies this`head, page
      ensures Valid() && Text() == PutStamps(old(Text()), [now])
      ensures |old(Text()).Unread()| + RECORD < page.Length ==>
                Text().Unread() == old(Text().Unread()) + StampRecord(now)
    {
      PutStampsOneMore(Text(), [], now);
      PutAppends(Text(), StampRecord(now));
      assert [] + [now] == [now];
      PutRecord(StampRecord(now));
    }

    // copy_to_user from the tail on, and the move of the tail past what was copied.
    method CopyOut(n: nat) returns (data: seq<byte>)
      requires Valid() && n <= Text().Readable()
      modifies this`tail
      ensures Valid() && Text() == old(Text()).Take(n)
      ensures |data| == n && data + Text().Unread() == old(Text()).Unread()
    {
      ghost var was := Text();
      TakeDropsOldest(was, n);
      data := page[tail..tail + n];
      assert data == was.page[was.tail..was.tail + n];
      tail := IncrBp(tail, n);
      assert Text() == was.Take(n);
    }

    // short_i_read, for a caller whose buffer can or cannot be written.
    method Read(count: nat, writable: bool) returns (r: ReadResult)
      requires Valid()
      modifies this`tail
      ensures Valid()
      ensures r.Blocks? <==> old(Text().Unread()) == []
      ensures r.Fault? <==> old(Text().Unread()) != [] && !writable
      ensures !r.Bytes? ==> Text() == old(Text())
      ensures r.Bytes? ==> |r.data| == Min(count, old(Text()).Readable())
      ensures r.Bytes? ==> |r.data| <= count && (count > 0 ==> r.data != [])
      ensures r.Bytes? && |r.data| < count ==> Text().Unread() == [] || tail == 0
      ensures r.Bytes? ==> r.data + Text().Unread() == old(Text().Unread())
    {
      ghost var was := Text();
      TakeDropsOldest(was, 0);
      if head == tail { return Blocks; }
      var count0: int := head - tail;
      if count0 < 0 { count0 := page.Length - tail; }
      var n := if count0 < count then count0 else count;
      assert n == Min(count, was.Readable());
      if !writable { return Fault; }
      var data := CopyOut(n);
      r := Bytes(data);
    }

    // short_wq_interrupt and short_tl_interrupt.
    method TopHalf(now: Timeval)
      requires Valid()
      modifies this`tvHead, this`count, this`scheduled, tv
      ensures Valid() && Saved() == old(Saved()).Push(now)
      ensures |old(Saved().Pending())| + 1 < NR_TIMEVAL ==> Saved().Pending() == old(Saved().Pending()) + [now]
      ensures count == old(count) + 1 && scheduled
      ensures Text() == old(Text())
    {
      PushAppends(Saved(), now);
      tv[tvHead] := now;
      tvHead := if tvHead == NR_TIMEVAL - 1 then 0 else tvHead + 1;
      scheduled := true;
      count := count + 1;
    }

    // One turn of the loop in short_do_tasklet; the result is the loop condition.
    method PrintOldest() returns (more: bool)
      requires Valid()
      modifies this`head, this`tvTail, page
      ensures Valid() && Saved() == old(Saved()).Pop() && (more <==> tvTail != tvHead)
      ensures Text() == PutStamps(old(Text()), [tv[old(tvTail)]])
    {
      PopDropsOldest(Saved());
      var stamp := tv[tvTail];
      PutStampsOneMore(Text(), [], stamp);
      assert [] + [stamp] == [stamp];
      PutRecord(StampRecord(stamp));
      tvTail := if tvTail == NR_TIMEVAL - 1 then 0 else tvTail + 1;
      more := tvTail != tvHead;
    }

    // short_do_tasklet, not interrupted.
    method BottomHalf()
      requires Valid() && count < 1_000_000
      modifies this`head, this`tvTail, this`count, this`scheduled, page
      ensures Valid() && count == 0 && !scheduled
      ensures Saved() == old(Saved()).(tail := tvHead)
      ensures var before := old(Text());
              before.head + RECORD <= |before.page| && before.Put(HeaderRecord(old(count))).Valid()
              && Text() == PutStamps(before.Put(HeaderRecord(old(count))), old(Saved().Lap()))
    {
      var savecount := count;
      count := 0;
      scheduled := false;
      PutKeepsValid(Text(), HeaderRecord(savecount));
      PutRecord(HeaderRecord(savecount));
      ghost var start := Text();
      ghost var first := Saved();
      ghost var done := 0;
      var more := true;
      while more
        invariant Valid() && count == 0 && !scheduled
        invariant LapLeft(first, Saved(), done, more)
        invariant Text() == PutStamps(start, first.Lap()[..done])
        decreases |first.Lap()| - done
      {
        LapStep(first, Saved(), done);
        PutStampsSplit(start, first.Lap(), done);
        more := PrintOldest();
        done := done + 1;
      }
      assert first.Lap()[..done] == first.Lap();
    }
  }

  // With room in the page, a bottom half adds one header and the stamps of its lap.
  lemma BottomHalfAppends(r: Ring, count: nat, times: seq<Timeval>)
    requires r.Valid() && |r.Unread()| + RECORD * (1 + |times|) < |r.page|
    ensures r.head + RECORD <= |r.page| && r.Put(HeaderRecord(count)).Valid()
    ensures PutStamps(r.Put(HeaderRecord(count)), times).Unread() == r.Unread() + HeaderRecord(count) + Stamps(times)
  {
    PutAppends(r, HeaderRecord(count));
    PutStampsAppends(r.Put(HeaderRecord(count)), times);
  }
}
