// The text the short driver hands to readers (ldd/short/short.c): 16-byte records in one
// page used as a ring, and the array of time values between the two interrupt halves.
module ShortText {
  import opened Common

  const RECORD := 16
  const NR_TIMEVAL := 512

  type Usec = n: nat | n < 1_000_000

  datatype Timeval = Timeval(sec: nat, usec: Usec)

  // --- Records ---

  function Pow10(w: nat): (r: nat)
    ensures r > 0
  {
    if w == 0 then 1 else 10 * Pow10(w - 1)
  }

  function Digit(n: nat): byte {
    (48 + n % 10) as byte
  }

  // "%0<w>u" for a number of at most w digits.
  function Zeroed(n: nat, w: nat): (s: seq<byte>)
    ensures |s| == w
    ensures forall c :: c in s ==> 48 <= c < 58
  {
    if w == 0 then [] else Zeroed(n / 10, w - 1) + [Digit(n)]
  }

  // "%<w>i" for a number of at most w digits.
  function Padded(n: nat, w: nat): (s: seq<byte>)
    ensures |s| == w
    ensures forall c :: c in s ==> c == 32 || 48 <= c < 58
  {
    if w == 0 then []
    else if n < 10 then seq(w - 1, _ => 32) + [Digit(n)]
    else Padded(n / 10, w - 1) + [Digit(n)]
  }

  // The number a field of digits and leading spaces denotes.
  function Number(s: seq<byte>): nat {
    if s == [] || !(48 <= s[|s| - 1] < 58) then 0
    else 10 * Number(s[..|s| - 1]) + (s[|s| - 1] as int - 48)
  }

  lemma {:induction false} ZeroedReadsBack(n: nat, w: nat)
    requires n < Pow10(w)
    ensures Number(Zeroed(n, w)) == n
  {
    if w > 0 {
      ZeroedReadsBack(n / 10, w - 1);
      assert Zeroed(n, w)[..w - 1] == Zeroed(n / 10, w - 1);
    }
  }

  lemma {:induction false} PaddedReadsBack(n: nat, w: nat)
    requires 0 < w && n < Pow10(w)
    ensures Number(Padded(n, w)) == n
  {
    var front := Padded(n, w)[..w - 1];
    if n < 10 {
      assert front == seq(w - 1, _ => 32);
      assert Number(front) == 0;
    } else {
      assert Pow10(1) == 10;
      assert front == Padded(n / 10, w - 1);
      PaddedReadsBack(n / 10, w - 1);
    }
  }

  predicate IsHeader(record: seq<byte>) {
    record != [] && record[0] == 98
  }

  // "%08u.%06u\n"
  function StampRecord(t: Timeval): (r: seq<byte>)
    ensures |r| == RECORD && !IsHeader(r)
  {
    var seconds := Zeroed(t.sec % 100_000_000, 8);
    assert seconds[0] in seconds;
    seconds + [46] + Zeroed(t.usec, 6) + [10]
  }

  const BH_AFTER: seq<byte> := [98, 104, 32, 97, 102, 116, 101, 114, 32]

  // "bh after %6i\n"
  function HeaderRecord(n: nat): (r: seq<byte>)
    ensures |r| == RECORD && IsHeader(r)
  {
    BH_AFTER + Padded(n, 6) + [10]
  }

  function HeaderCount(record: seq<byte>): nat
    requires |record| == RECORD
  {
    Number(record[9..15])
  }

  lemma StampReadsBack(t: Timeval)
    ensures Number(StampRecord(t)[..8]) == t.sec % 100_000_000
    ensures Number(StampRecord(t)[9..15]) == t.usec
    ensures StampRecord(t)[8] as char == '.' && StampRecord(t)[15] as char == '\n'
    ensures forall i :: 0 <= i < 15 && i != 8 ==> '0' <= StampRecord(t)[i] as char <= '9'
  {
    var seconds, usec := Zeroed(t.sec % 100_000_000, 8), Zeroed(t.usec, 6);
    forall i | 0 <= i < 15 && i != 8 ensures '0' <= StampRecord(t)[i] as char <= '9' {
      if i < 8 { assert seconds[i] in seconds; } else { assert usec[i - 9] in usec; }
    }
    assert Pow10(6) == 1_000_000;
    assert Pow10(8) == 100_000_000 by { assert Pow10(7) == 10_000_000; }
    assert StampRecord(t)[..8] == Zeroed(t.sec % 100_000_000, 8);
    assert StampRecord(t)[9..15] == Zeroed(t.usec, 6);
    ZeroedReadsBack(t.sec % 100_000_000, 8);
    ZeroedReadsBack(t.usec, 6);
  }

  lemma HeaderReadsBack(n: nat)
    requires n < 1_000_000
    ensures HeaderCount(HeaderRecord(n)) == n
    ensures forall i :: 0 <= i < 9 ==> HeaderRecord(n)[i] as char == "bh after "[i]
    ensures forall i :: 9 <= i < 15 ==> HeaderRecord(n)[i] as char == ' ' || '0' <= HeaderRecord(n)[i] as char <= '9'
    ensures HeaderRecord(n)[15] as char == '\n'
  {
    forall i | 9 <= i < 15 ensures HeaderRecord(n)[i] as char == ' ' || '0' <= HeaderRecord(n)[i] as char <= '9' {
      assert HeaderRecord(n)[i] == Padded(n, 6)[i - 9] && Padded(n, 6)[i - 9] in Padded(n, 6);
    }
    assert Pow10(6) == 1_000_000;
    assert HeaderRecord(n)[9..15] == Padded(n, 6);
    PaddedReadsBack(n, 6);
  }

  // The text short_interrupt prints for a series of interrupts.
  function Stamps(times: seq<Timeval>): (text: seq<byte>)
    ensures |text| == RECORD * |times|
  {
    if times == [] then [] else Stamps(times[..|times| - 1]) + StampRecord(times[|times| - 1])
  }

  lemma {:induction false} StampsConcat(a: seq<Timeval>, b: seq<Timeval>)
    ensures Stamps(a + b) == Stamps(a) + Stamps(b)
    decreases |b|
  {
    if b == [] {
      assert a + b == a;
    } else {
      var front := b[..|b| - 1];
      assert (a + b)[..|a + b| - 1] == a + front;
      StampsConcat(a, front);
    }
  }

  // --- What a reader sees in a text ---

  function LastRecord(text: seq<byte>): (r: seq<byte>)
    requires |text| >= RECORD
    ensures |r| == RECORD
  {
    text[|text| - RECORD..]
  }

  function ButLast(text: seq<byte>): seq<byte>
    requires |text| >= RECORD
  {
    text[..|text| - RECORD]
  }

  // The text without its header records.
  function WithoutHeaders(text: seq<byte>): (r: seq<byte>)
    decreases |text|
  {
    if |text| < RECORD then []
    else WithoutHeaders(ButLast(text)) + if IsHeader(LastRecord(text)) then [] else LastRecord(text)
  }

  // How many stamps are still owed to the last header, when every earlier header is
  // followed by exactly as many stamps as it says.
  function Owed(text: seq<byte>): Option<nat>
    decreases |text|
  {
    if |text| < RECORD then Some(0)
    else
      match Owed(ButLast(text))
      case None => None
      case Some(k) =>
        if IsHeader(LastRecord(text)) then (if k == 0 then Some(HeaderCount(LastRecord(text))) else None)
        else if k == 0 then None else Some(k - 1)
  }

  lemma OneMoreRecord(text: seq<byte>, record: seq<byte>)
    requires |record| == RECORD
    ensures |text + record| >= RECORD
    ensures ButLast(text + record) == text && LastRecord(text + record) == record
  {
  }

  // --- The page ---

  // short_buffer with short_head and short_tail as offsets in it.
  datatype Ring = Ring(page: seq<byte>, head: nat, tail: nat) {
    ghost predicate Valid() {
      && |page| > 0 && |page| % RECORD == 0
      && head < |page| && head % RECORD == 0
      && tail < |page|
    }

    // The text between tail and head.
    ghost function Unread(): (s: seq<byte>)
      requires Valid()
      ensures |s| < |page|
    {
      if tail <= head then page[tail..head] else page[tail..] + page[..head]
    }

    // How much of it one read can return.
    function Readable(): nat
      requires tail <= |page|
    {
      if head >= tail then head - tail else |page| - tail
    }

    function Incr(index: nat, delta: nat): nat {
      if index + delta >= |page| then 0 else index + delta
    }

    function Put(record: seq<byte>): Ring
      requires |record| == RECORD && head + RECORD <= |page|
    {
      Ring(Overlay(page, head, record), Incr(head, RECORD), tail)
    }

    function Take(n: nat): Ring {
      this.(tail := Incr(tail, n))
    }
  }

  lemma IncrWithinPage(r: Ring, index: nat, delta: nat)
    requires 0 < |r.page| && index + delta <= |r.page|
    ensures r.Incr(index, delta) == (index + delta) % |r.page|
  {
    if index + delta == |r.page| {
      DigitsUnique(|r.page|, 1, 0);
    } else {
      DigitsUnique(|r.page|, 0, index + delta);
    }
  }

  lemma MultiplesApart(a: nat, b: nat)
    requires a < b && a % RECORD == 0 && b % RECORD == 0
    ensures a + RECORD <= b
  {
  }

  // The reset to the page base is the modular increment.
  lemma ResetIsModular(r: Ring, n: nat)
    requires r.Valid()
    ensures r.head + RECORD <= |r.page|
    ensures r.Incr(r.head, RECORD) == (r.head + RECORD) % |r.page|
    ensures n <= r.Readable() ==> r.Incr(r.tail, n) == (r.tail + n) % |r.page|
  {
    MultiplesApart(r.head, |r.page|);
    IncrWithinPage(r, r.head, RECORD);
    if n <= r.Readable() { IncrWithinPage(r, r.tail, n); }
  }

  lemma PutKeepsValid(r: Ring, record: seq<byte>)
    requires r.Valid() && |record| == RECORD
    ensures r.head + RECORD <= |r.page| && r.Put(record).Valid()
  {
    MultiplesApart(r.head, |r.page|);
  }

  // A record is appended to the unread text exactly when it leaves a byte of the page free.
  lemma PutAppends(r: Ring, record: seq<byte>)
    requires r.Valid() && |record| == RECORD
    ensures r.head + RECORD <= |r.page| && r.Put(record).Valid()
    ensures r.Put(record).Unread() == r.Unread() + record <==> |r.Unread()| + RECORD < |r.page|
  {
    PutKeepsValid(r, record);
    var t := r.Put(record);
    if |r.Unread()| + RECORD < |r.page| {
      assert t.page[r.head..r.head + RECORD] == record;
      assert t.page[..r.head] == r.page[..r.head];
      assert t.page[r.head + RECORD..] == r.page[r.head + RECORD..];
      if r.tail <= r.head {
        assert t.page[r.tail..r.head] == r.page[r.tail..r.head];
        assert t.page[r.tail..r.head + RECORD] == r.Unread() + record;
      } else {
        assert t.page[r.tail..] == r.page[r.tail..];
        assert t.page[..r.head + RECORD] == r.page[..r.head] + record;
      }
    }
  }

  // A read takes the oldest unread bytes.
  lemma TakeDropsOldest(r: Ring, n: nat)
    requires r.Valid() && n <= r.Readable()
    ensures r.tail + n <= |r.page| && r.Take(n).Valid()
    ensures r.Unread() == r.page[r.tail..r.tail + n] + r.Take(n).Unread()
    ensures r.Readable() == 0 <==> r.Unread() == []
  {
  }

  // --- The array of time values ---

  function IncrTv(i: nat): nat {
    if i == NR_TIMEVAL - 1 then 0 else i + 1
  }

  datatype Times = Times(tv: seq<Timeval>, head: nat, tail: nat) {
    ghost predicate Valid() {
      |tv| == NR_TIMEVAL && head < NR_TIMEVAL && tail < NR_TIMEVAL
    }

    ghost function Pending(): seq<Timeval>
      requires Valid()
    {
      if tail <= head then tv[tail..head] else tv[tail..] + tv[..head]
    }

    // What a bottom half started now prints: its loop tests after the first record.
    ghost function Lap(): seq<Timeval>
      requires Valid()
    {
      if tail < head then tv[tail..head] else tv[tail..] + tv[..head]
    }

    function Push(now: Timeval): Times
      requires head < |tv|
    {
      Times(tv[head := now], IncrTv(head), tail)
    }

    function Pop(): Times {
      this.(tail := IncrTv(tail))
    }
  }

  lemma PushAppends(q: Times, now: Timeval)
    requires q.Valid()
    ensures q.Push(now).Valid()
    ensures q.Push(now).Pending() == q.Pending() + [now] <==> |q.Pending()| + 1 < NR_TIMEVAL
  {
    var t := q.Push(now);
    if |q.Pending()| + 1 < NR_TIMEVAL {
      assert t.tv[..q.head] == q.tv[..q.head];
      if q.tail <= q.head {
        assert t.tv[q.tail..q.head + 1] == q.tv[q.tail..q.head] + [now];
      } else {
        assert t.tv[q.tail..] == q.tv[q.tail..];
        assert t.tv[..q.head + 1] == q.tv[..q.head] + [now];
      }
    }
  }

  lemma PopDropsOldest(q: Times)
    requires q.Valid()
    ensures q.Pop().Valid()
    ensures q.Lap() == [q.tv[q.tail]] + q.Pop().Pending()
    ensures q.Pending() == if q.tail == q.head then [] else q.Lap()
    ensures |q.Lap()| == if q.tail == q.head then NR_TIMEVAL else |q.Pending()|
  {
  }
}
