// A scull device as its users see it: a sparse array of bytes, cut into quanta. What one
// read or write does to it, and what loops of short reads and writes add up to
// (ldd/scull/main.c).
module SparseStore {
  import opened Common

  lemma Positive(quantum: nat, qset: nat)
    requires 0 < quantum && 0 < qset
    ensures 0 < quantum * qset
  {
  }

  // Quanta by item and slot, the way the driver finds them.
  datatype Store = Store(quantum: nat, qset: nat, size: nat, quanta: imap<(nat, nat), seq<byte>>) {
    ghost predicate Valid() {
      && 0 < quantum && 0 < qset
      && forall k :: k in quanta ==> k.1 < qset && |quanta[k]| == quantum
    }

    function ItemSize(): nat { quantum * qset }

    // The driver's decomposition of a file position.
    function ItemOf(pos: nat): nat
      requires 0 < ItemSize()
    {
      pos / ItemSize()
    }

    function SlotOf(pos: nat): nat
      requires 0 < quantum && 0 < ItemSize()
    {
      pos % ItemSize() / quantum
    }

    function OffsetOf(pos: nat): nat
      requires 0 < quantum && 0 < ItemSize()
    {
      pos % ItemSize() % quantum
    }

    ghost function Key(pos: nat): (nat, nat)
      requires Valid()
    {
      Positive(quantum, qset);
      (ItemOf(pos), SlotOf(pos))
    }

    ghost function Offset(pos: nat): (o: nat)
      requires Valid()
      ensures o < quantum
    {
      Positive(quantum, qset);
      OffsetOf(pos)
    }

    // The byte at a position; None in a hole.
    ghost function ByteAt(pos: nat): Option<byte>
      requires Valid()
    {
      if Key(pos) in quanta then Some(quanta[Key(pos)][Offset(pos)]) else None
    }

    // How far a read or write starting at pos reaches: to the end of the quantum.
    ghost function Reach(pos: nat, count: nat): nat
      requires Valid()
    {
      Min(count, quantum - Offset(pos))
    }

    ghost function Read(pos: nat, count: nat): seq<byte>
      requires Valid()
    {
      if pos >= size || Key(pos) !in quanta then [] else
      var n := Reach(pos, Min(count, size - pos));
      quanta[Key(pos)][Offset(pos)..Offset(pos) + n]
    }

    // `bytes` laid into the quantum at pos, whose previous contents are `base`.
    ghost function Patch(pos: nat, base: seq<byte>, bytes: seq<byte>): (t: Store)
      requires Valid() && |base| == quantum && Offset(pos) + |bytes| <= quantum
      ensures t.Valid() && t.quantum == quantum && t.qset == qset
    {
      Decompose(this, pos);
      this.(quanta := quanta[Key(pos) := Overlay(base, Offset(pos), bytes)])
    }

    // The quantum at pos as a write finds it: what is stored, or a fresh one whose bytes are unspecified.
    ghost predicate Base(pos: nat, base: seq<byte>)
      requires Valid()
    {
      |base| == quantum && (Key(pos) in quanta ==> base == quanta[Key(pos)])
    }

    ghost function Write(pos: nat, base: seq<byte>, data: seq<byte>): (t: Store)
      requires Valid() && |base| == quantum
      ensures t.Valid() && t.quantum == quantum && t.qset == qset
    {
      var n := Reach(pos, |data|);
      var s := Patch(pos, base, data[..n]);
      if size < pos + n then s.(size := pos + n) else s
    }
  }

  // Item, slot and offset are the digits of the position.
  lemma Decompose(s: Store, pos: nat)
    requires s.Valid()
    ensures s.Key(pos).1 < s.qset
    ensures pos == s.Key(pos).0 * s.ItemSize() + s.Key(pos).1 * s.quantum + s.Offset(pos)
  {
    Positive(s.quantum, s.qset);
    DivMod(pos, s.ItemSize());
    var rest := pos % s.ItemSize();
    DivMod(rest, s.quantum);
    var slot := rest / s.quantum;
    if s.qset < slot { MultipleStep(s.qset, slot, s.quantum); }
  }

  // ... and no other digits give it: the decomposition is a bijection.
  lemma DecompositionIsUnique(s: Store, pos: nat, item: nat, slot: nat, offset: nat)
    requires s.Valid() && slot < s.qset && offset < s.quantum
    requires pos == item * s.ItemSize() + slot * s.quantum + offset
    ensures s.Key(pos) == (item, slot) && s.Offset(pos) == offset
  {
    Positive(s.quantum, s.qset);
    var rest := slot * s.quantum + offset;
    MultipleStep(slot, s.qset, s.quantum);
    assert s.qset * s.quantum == s.ItemSize();
    DigitsUnique(s.ItemSize(), item, rest);
    assert s.ItemOf(pos) == item && pos % s.ItemSize() == rest;
    DigitsUnique(s.quantum, slot, offset);
  }

  lemma Regroup(item: nat, slot: nat, quantum: nat, qset: nat)
    ensures item * (quantum * qset) + slot * quantum == (item * qset + slot) * quantum
  {
    assert item * (quantum * qset) == (item * qset) * quantum;
  }

  // Counting whole quanta first and items of them after finds the same place.
  lemma DigitsByQuanta(s: Store, pos: nat)
    requires s.Valid()
    ensures s.Key(pos) == (pos / s.quantum / s.qset, pos / s.quantum % s.qset)
  {
    Decompose(s, pos);
    var (item, slot) := s.Key(pos);
    var k := item * s.qset + slot;
    Regroup(item, slot, s.quantum, s.qset);
    assert pos == k * s.quantum + s.Offset(pos);
    DigitsUnique(s.quantum, k, s.Offset(pos));
    DigitsUnique(s.qset, item, slot);
  }

  lemma OffsetIsRemainder(s: Store, pos: nat)
    requires s.Valid()
    ensures s.Offset(pos) == pos % s.quantum
  {
    Decompose(s, pos);
    var (item, slot) := s.Key(pos);
    var k := item * s.qset + slot;
    Regroup(item, slot, s.quantum, s.qset);
    assert pos == k * s.quantum + s.Offset(pos);
    DigitsUnique(s.quantum, k, s.Offset(pos));
  }

  // How far one call gets: all the way, or exactly to the end of the quantum.
  lemma ReachStops(s: Store, pos: nat, count: nat, n: nat, quantum: nat)
    requires s.Valid() && n == s.Reach(pos, count) && quantum == s.quantum
    ensures n <= count && pos % quantum + n <= quantum
    ensures n < count ==> pos % quantum + n == quantum
  {
    OffsetIsRemainder(s, pos);
  }

  lemma ReadLength(s: Store, pos: nat, count: nat)
    requires s.Valid() && pos < s.size && s.ByteAt(pos).Some?
    ensures |s.Read(pos, count)| == s.Reach(pos, Min(count, s.size - pos))
  {
  }

  lemma ReadStops(s: Store, pos: nat, count: nat, n: nat, quantum: nat)
    requires s.Valid() && n == |s.Read(pos, count)| && quantum == s.quantum
    ensures n <= count && pos % quantum + n <= quantum
    ensures n < count && pos < s.size && s.ByteAt(pos).Some? ==> pos + n == s.size || pos % quantum + n == quantum
  {
    OffsetIsRemainder(s, pos);
    if pos < s.size && s.ByteAt(pos).Some? { ReadLength(s, pos, count); }
  }

  // A quantum ends no later than its item does.
  lemma QuantumEndsInItem(s: Store, pos: nat, count: nat)
    requires s.Valid() && s.Offset(pos) + count <= s.quantum
    ensures pos + count <= (s.Key(pos).0 + 1) * s.ItemSize()
  {
    Decompose(s, pos);
    MultipleStep(s.Key(pos).1, s.qset, s.quantum);
    MultipleStep(s.Key(pos).0, s.Key(pos).0 + 1, s.ItemSize());
    assert s.qset * s.quantum == s.ItemSize();
  }

  // Positions in the same quantum differ by their offsets.
  lemma WithinQuantum(s: Store, pos: nat, p: nat)
    requires s.Valid()
    ensures s.Key(p) == s.Key(pos) <==> pos - s.Offset(pos) <= p < pos - s.Offset(pos) + s.quantum
    ensures s.Key(p) == s.Key(pos) ==> p - pos == s.Offset(p) - s.Offset(pos)
  {
    Decompose(s, pos);
    Decompose(s, p);
    var start := pos - s.Offset(pos);
    if start <= p < start + s.quantum {
      DecompositionIsUnique(s, p, s.Key(pos).0, s.Key(pos).1, p - start);
    }
  }

  // --- One call ---

  // A patch changes exactly the bytes it covers; where it brings in a fresh quantum, the
  // rest of that quantum becomes readable with unspecified contents.
  lemma PatchChangesOnlyItsRange(s: Store, pos: nat, base: seq<byte>, bytes: seq<byte>, p: nat)
    requires s.Valid() && s.Base(pos, base) && s.Offset(pos) + |bytes| <= s.quantum
    ensures var t := s.Patch(pos, base, bytes);
            && t.Valid()
            && (pos <= p < pos + |bytes| ==> t.ByteAt(p) == Some(bytes[p - pos]))
            && (!(pos <= p < pos + |bytes|) && s.ByteAt(p).Some? ==> t.ByteAt(p) == s.ByteAt(p))
            && (s.Key(p) != s.Key(pos) ==> t.ByteAt(p) == s.ByteAt(p))
  {
    var t := s.Patch(pos, base, bytes);
    Decompose(s, pos);
    assert t.Valid();
    WithinQuantum(s, pos, p);
    assert t.Key(p) == s.Key(p) && t.Offset(p) == s.Offset(p);
  }

  // The byte at p, before and after `data` is written at pos.
  ghost predicate Written(before: Option<byte>, after: Option<byte>, pos: nat, data: seq<byte>, p: nat) {
    if pos <= p < pos + |data| then after == Some(data[p - pos])
    else before.Some? ==> after == before
  }

  lemma WriteChangesOnlyItsRange(s: Store, pos: nat, base: seq<byte>, data: seq<byte>, p: nat)
    requires s.Valid() && s.Base(pos, base)
    ensures var t, n := s.Write(pos, base, data), s.Reach(pos, |data|);
            && t.Valid() && t.quantum == s.quantum && t.qset == s.qset
            && t.size == (if s.size < pos + n then pos + n else s.size)
            && Written(s.ByteAt(p), t.ByteAt(p), pos, data[..n], p)
  {
    var n := s.Reach(pos, |data|);
    PatchChangesOnlyItsRange(s, pos, base, data[..n], p);
    var t := s.Write(pos, base, data);
    var u := s.Patch(pos, base, data[..n]);
    assert t.quanta == u.quanta;
    assert t.Key(p) == u.Key(p) && t.Offset(p) == u.Offset(p);
  }

  // A read returns the bytes at its positions; it returns nothing only at end of file,
  // in a hole, or when nothing is asked for.
  lemma ReadReturnsTheBytes(s: Store, pos: nat, count: nat)
    requires s.Valid()
    ensures var r := s.Read(pos, count);
            && |r| <= count && (r != [] ==> pos + |r| <= s.size)
            && (r == [] <==> count == 0 || pos >= s.size || s.ByteAt(pos).None?)
            && forall i :: 0 <= i < |r| ==> s.ByteAt(pos + i) == Some(r[i])
  {
    var r := s.Read(pos, count);
    forall i | 0 <= i < |r| ensures s.ByteAt(pos + i) == Some(r[i]) {
      WithinQuantum(s, pos, pos + i);
    }
  }

  // --- Loops of short calls ---

  // `t` is what the loop `while data is left: write` makes of s, whatever the fresh
  // quanta on its way hold.
  ghost predicate WriteLoop(s: Store, pos: nat, data: seq<byte>, t: Store)
    requires s.Valid()
    decreases |data|
  {
    if data == [] then t == s else
      var n := s.Reach(pos, |data|);
      exists base :: s.Base(pos, base) && WriteLoop(s.Write(pos, base, data), pos + n, data[n..], t)
  }

  lemma {:induction false} WriteLoopTerminates(s: Store, pos: nat, data: seq<byte>) returns (t: Store)
    requires s.Valid()
    ensures WriteLoop(s, pos, data, t)
    decreases |data|
  {
    if data == [] {
      t := s;
    } else {
      var n := s.Reach(pos, |data|);
      var base := if s.Key(pos) in s.quanta then s.quanta[s.Key(pos)] else seq(s.quantum, _ => 0);
      t := WriteLoopTerminates(s.Write(pos, base, data), pos + n, data[n..]);
      assert s.Base(pos, base);
    }
  }

  // One turn of the loop `while data is left: read`.
  ghost function ShortRead(s: Store, pos: nat, count: nat): (r: seq<byte>)
    requires s.Valid()
    ensures |r| <= count
  {
    ReadReturnsTheBytes(s, pos, count);
    s.Read(pos, count)
  }

  ghost function ReadAll(s: Store, pos: nat, count: nat): seq<byte>
    requires s.Valid()
    decreases count
  {
    var r := ShortRead(s, pos, count);
    if r == [] then [] else r + ReadAll(s, pos + |r|, count - |r|)
  }

  ghost predicate Holds(s: Store, pos: nat, data: seq<byte>)
    requires s.Valid()
  {
    forall i :: 0 <= i < |data| ==> s.ByteAt(pos + i) == Some(data[i])
  }

  lemma StillStored(s: Store, pos: nat, data: seq<byte>, n: nat)
    requires s.Valid() && n <= |data|
    requires Holds(s, pos, data)
    ensures Holds(s, pos + n, data[n..])
  {
    forall i | 0 <= i < |data[n..]| ensures s.ByteAt(pos + n + i) == Some(data[n..][i]) {
      assert s.ByteAt(pos + (n + i)) == Some(data[n + i]);
    }
  }

  lemma ReadIsPrefix(s: Store, pos: nat, data: seq<byte>)
    requires s.Valid() && data != [] && pos + |data| <= s.size
    requires Holds(s, pos, data)
    ensures var r := ShortRead(s, pos, |data|); r != [] && r <= data
  {
    ReadReturnsTheBytes(s, pos, |data|);
    var r := s.Read(pos, |data|);
    assert s.ByteAt(pos) == Some(data[0]) by { assert pos == pos + 0; }
    forall i | 0 <= i < |r| ensures r[i] == data[i] {
      assert s.ByteAt(pos + i) == Some(r[i]);
    }
  }

  lemma ReadOnce(s: Store, pos: nat, data: seq<byte>) returns (n: nat)
    requires s.Valid() && data != [] && pos + |data| <= s.size && Holds(s, pos, data)
    ensures 0 < n <= |data| && Holds(s, pos + n, data[n..])
    ensures ReadAll(s, pos, |data|) == data[..n] + ReadAll(s, pos + n, |data| - n)
  {
    ReadIsPrefix(s, pos, data);
    n := |ShortRead(s, pos, |data|)|;
    StillStored(s, pos, data, n);
  }

  lemma {:induction false} ReadAllReads(s: Store, pos: nat, data: seq<byte>)
    requires s.Valid() && (data != [] ==> pos + |data| <= s.size)
    requires Holds(s, pos, data)
    ensures ReadAll(s, pos, |data|) == data
    decreases |data|
  {
    if data != [] {
      var n := ReadOnce(s, pos, data);
      ReadAllReads(s, pos + n, data[n..]);
      assert data == data[..n] + data[n..];
    }
  }

  ghost predicate BytesWritten(s: Store, t: Store, pos: nat, data: seq<byte>)
    requires s.Valid() && t.Valid()
  {
    forall p: nat :: Written(s.ByteAt(p), t.ByteAt(p), pos, data, p)
  }

  // t is s with `data` written over it from pos on, and possibly more bytes readable.
  ghost predicate Overwritten(s: Store, t: Store, pos: nat, data: seq<byte>) {
    && s.Valid() && t.Valid()
    && t.size == (if data != [] && s.size < pos + |data| then pos + |data| else s.size)
    && BytesWritten(s, t, pos, data)
  }

  lemma OverwrittenByOne(s: Store, pos: nat, base: seq<byte>, data: seq<byte>)
    requires s.Valid() && s.Base(pos, base) && data != []
    ensures var n := s.Reach(pos, |data|); n > 0 && Overwritten(s, s.Write(pos, base, data), pos, data[..n])
  {
    WriteChangesOnlyItsRange(s, pos, base, data, pos);
    var n, t := s.Reach(pos, |data|), s.Write(pos, base, data);
    forall p: nat ensures Written(s.ByteAt(p), t.ByteAt(p), pos, data[..n], p) {
      WriteChangesOnlyItsRange(s, pos, base, data, p);
    }
  }

  lemma OverwrittenInTwo(s: Store, u: Store, t: Store, pos: nat, first: seq<byte>, rest: seq<byte>)
    requires first != [] && Overwritten(s, u, pos, first) && Overwritten(u, t, pos + |first|, rest)
    ensures Overwritten(s, t, pos, first + rest)
  {
    forall p: nat ensures Written(s.ByteAt(p), t.ByteAt(p), pos, first + rest, p) {
      assert Written(s.ByteAt(p), u.ByteAt(p), pos, first, p);
      assert Written(u.ByteAt(p), t.ByteAt(p), pos + |first|, rest, p);
    }
  }

  lemma OverwrittenIsHeld(s: Store, t: Store, pos: nat, data: seq<byte>)
    requires Overwritten(s, t, pos, data)
    ensures Holds(t, pos, data) && (data != [] ==> pos + |data| <= t.size)
    ensures forall p: nat :: !(pos <= p < pos + |data|) && s.ByteAt(p).Some? ==> t.ByteAt(p) == s.ByteAt(p)
  {
    forall p: nat | !(pos <= p < pos + |data|) && s.ByteAt(p).Some? ensures t.ByteAt(p) == s.ByteAt(p) {
      assert Written(s.ByteAt(p), t.ByteAt(p), pos, data, p);
    }
    forall i | 0 <= i < |data| ensures t.ByteAt(pos + i) == Some(data[i]) {
      assert Written(s.ByteAt(pos + i), t.ByteAt(pos + i), pos, data, pos + i);
    }
  }

  // What a loop of writes has done to one byte.
  lemma WrittenInTwo(b0: Option<byte>, b1: Option<byte>, b2: Option<byte>, pos: nat, data: seq<byte>, n: nat, p: nat)
    requires n <= |data| && Written(b0, b1, pos, data[..n], p) && Written(b1, b2, pos + n, data[n..], p)
    ensures Written(b0, b2, pos, data, p)
  {
  }

  lemma {:induction false} WriteLoopGrows(s: Store, pos: nat, data: seq<byte>, t: Store)
    requires s.Valid() && WriteLoop(s, pos, data, t)
    ensures t.Valid() && t.size == if data != [] && s.size < pos + |data| then pos + |data| else s.size
    decreases |data|
  {
    if data != [] {
      var n := s.Reach(pos, |data|);
      var base :| s.Base(pos, base) && WriteLoop(s.Write(pos, base, data), pos + n, data[n..], t);
      WriteChangesOnlyItsRange(s, pos, base, data, pos);
      WriteLoopGrows(s.Write(pos, base, data), pos + n, data[n..], t);
    }
  }

  lemma {:induction false} WriteLoopWrites(s: Store, pos: nat, data: seq<byte>, t: Store, p: nat)
    requires s.Valid() && WriteLoop(s, pos, data, t)
    ensures t.Valid() && Written(s.ByteAt(p), t.ByteAt(p), pos, data, p)
    decreases |data|
  {
    if data != [] {
      var n := s.Reach(pos, |data|);
      var base :| s.Base(pos, base) && WriteLoop(s.Write(pos, base, data), pos + n, data[n..], t);
      var u := s.Write(pos, base, data);
      WriteChangesOnlyItsRange(s, pos, base, data, p);
      WriteLoopWrites(u, pos + n, data[n..], t, p);
      WrittenInTwo(s.ByteAt(p), u.ByteAt(p), t.ByteAt(p), pos, data, n, p);
    }
  }

  lemma WriteLoopOverwrites(s: Store, pos: nat, data: seq<byte>, t: Store)
    requires s.Valid() && WriteLoop(s, pos, data, t)
    ensures Overwritten(s, t, pos, data)
  {
    WriteLoopGrows(s, pos, data, t);
    forall p: nat ensures Written(s.ByteAt(p), t.ByteAt(p), pos, data, p) {
      WriteLoopWrites(s, pos, data, t, p);
    }
  }

  // Writing a buffer by short writes and reading it back by short reads returns the
  // buffer, and every byte stored elsewhere is still there.
  lemma WriteThenReadReturnsBuffer(s: Store, pos: nat, data: seq<byte>, t: Store)
    requires s.Valid() && WriteLoop(s, pos, data, t)
    ensures t.Valid() && ReadAll(t, pos, |data|) == data
    ensures forall p: nat :: !(pos <= p < pos + |data|) && s.ByteAt(p).Some? ==> t.ByteAt(p) == s.ByteAt(p)
  {
    WriteLoopOverwrites(s, pos, data, t);
    OverwrittenIsHeld(s, t, pos, data);
    ReadAllReads(t, pos, data);
  }
}
