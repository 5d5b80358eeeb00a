// The scull device: opening for writing trims it, reads and writes go through a list of
// items that scull_follow extends on the way (ldd/scull/main.c). `granted` says how many
// of the allocations an operation asks for succeed before one fails.
module ScullDevice {
  import opened Common
  import opened QuantumList
  import opened SparseStore

  datatype WriteResult =
    | NoMemory
    | WriteFault(copied: nat)   // -EFAULT after `copied` bytes
    | Wrote(count: nat)

  datatype ReadResult = ReadFault | Returned(bytes: seq<byte>)

  class Device {
    var data: Ptr
    var quantum: nat
    var qset: nat
    var size: nat
    var mem: Memory          // what this device has allocated
    ghost var l: Layout

    // No cell is lost or shared, and the list covers every item below the size.
    ghost predicate Valid()
      reads this
    {
      && 0 < quantum && 0 < qset
      && QuantumList.Valid(mem, l, quantum, qset)
      && data == l.ItemPtr(0)
      && size <= |l.items| * (quantum * qset)
    }

    constructor (quantumSize: nat, qsetSize: nat)
      requires 0 < quantumSize && 0 < qsetSize
      ensures Valid() && quantum == quantumSize && qset == qsetSize && size == 0 && mem == map[]
    {
      data, quantum, qset, size, mem, l := NULL, quantumSize, qsetSize, 0, map[], EMPTY;
    }

    ghost function Value(): (s: Store)
      requires Valid()
      reads this
      ensures s.Valid()
    {
      ContentsAreQuanta(mem, l, quantum, qset);
      Store(quantum, qset, size, Contents(mem, l))
    }

    // The table of an item, if it has one, or exists.
    ghost function TableOf(i: nat): Ptr
      reads this
    {
      if i < |l.tables| then l.tables[i] else NULL
    }

    method Kmalloc(cell: Cell, granted: bool) returns (p: Ptr)
      requires NULL !in mem
      modifies this`mem
      ensures p == NULL <==> !granted
      ensures p == NULL ==> mem == old(mem)
      ensures p != NULL ==> p !in old(mem) && mem == old(mem)[p := cell]
    {
      if !granted {
        return NULL;
      }
      ghost var spare := SpareAddress(mem.Keys);
      assert spare != NULL && spare !in mem;
      p :| p != NULL && p !in mem;
      mem := mem[p := cell];
    }

    method Kfree(p: Ptr)
      requires p == NULL || p in mem
      modifies this`mem
      ensures mem == old(mem) - {p}
    {
      mem := mem - {p};
    }

    // kmalloc and memset of a list item, hung behind `last` or, if there is none yet, at the head.
    method AppendItem(last: Ptr, granted: bool) returns (p: Ptr)
      requires Valid() && last == if l.items == [] then NULL else l.items[|l.items| - 1]
      modifies this`mem, this`data, this`l
      ensures Valid() && Value() == old(Value())
      ensures p == NULL <==> !granted
      ensures p == NULL ==> mem == old(mem) && data == old(data) && l == old(l)
      ensures p != NULL ==> l.items == old(l.items) + [p]
      ensures forall i: nat :: TableOf(i) == old(TableOf(i))
    {
      ghost var n := |l.items|;
      if n > 0 { ItemFacts(mem, l, quantum, qset, n - 1); }
      p := Kmalloc(Item(NULL, NULL), granted);
      if p == NULL {
        return;
      }
      ItemAdded(old(mem), l, quantum, qset, p);
      if last == NULL {
        data := p;
      } else {
        mem := mem[last := mem[last].(next := p)];
      }
      assert mem == LinkItem(old(mem), l, p);
      l := l.WithItem(p);
      MultipleStep(n, n + 1, quantum * qset);
    }

    // The item behind `qs`, which is the k-th; a new one if `qs` is the last.
    method NextItem(qs: Ptr, ghost k: nat, granted: nat) returns (next: Ptr, left: nat)
      requires Valid() && k < |l.items| && qs == l.items[k]
      modifies this`mem, this`data, this`l
      ensures Valid() && Value() == old(Value())
      ensures k + 1 < old(|l.items|) ==> mem == old(mem) && data == old(data) && l == old(l) && left == granted
      ensures next == NULL <==> old(|l.items|) + granted == k + 1
      ensures next != NULL ==> k + 1 < |l.items| && next == l.items[k + 1]
      ensures next == NULL ==> l == old(l)
      ensures next != NULL ==> |l.items| - old(|l.items|) == granted - left
      ensures k + 1 == old(|l.items|) && next != NULL ==> left == granted - 1
      ensures forall i: nat :: TableOf(i) == old(TableOf(i))
    {
      left := granted;
      ItemFacts(mem, l, quantum, qset, k);
      if mem[qs].next == NULL {
        var p := AppendItem(qs, granted > 0);
        if p == NULL {
          return NULL, 0;
        }
        left := granted - 1;
        ItemFacts(mem, l, quantum, qset, k);
      }
      next := mem[qs].next;
    }

    // The loop of scull_follow, from the first item on.
    method Advance(first: Ptr, n: nat, granted: nat) returns (qs: Ptr, left: nat)
      requires Valid() && l.items != [] && first == l.items[0]
      modifies this`mem, this`data, this`l
      ensures Valid() && Value() == old(Value())
      ensures n < old(|l.items|) ==> mem == old(mem) && data == old(data) && l == old(l)
      ensures qs == NULL <==> old(|l.items|) + granted <= n
      ensures qs != NULL ==> n < |l.items| && qs == l.items[n]
      ensures qs != NULL ==> left == granted - if n < old(|l.items|) then 0 else n + 1 - old(|l.items|)
      ensures |l.items| == if n < old(|l.items|) then old(|l.items|) else Min(n + 1, old(|l.items|) + granted)
      ensures forall i: nat :: TableOf(i) == old(TableOf(i))
    {
      qs, left := first, granted;
      ItemFacts(mem, l, quantum, qset, 0);
      var togo := n;
      while togo != 0
        invariant 0 <= togo <= n && n - togo < |l.items| && qs == l.items[n - togo]
        invariant Valid() && Value() == old(Value()) && qs != NULL
        invariant n - togo < old(|l.items|) ==> mem == old(mem) && data == old(data) && l == old(l)
        invariant |l.items| == if n - togo < old(|l.items|) then old(|l.items|) else n - togo + 1
        invariant left <= granted && |l.items| - old(|l.items|) == granted - left
        invariant forall i: nat :: TableOf(i) == old(TableOf(i))
        decreases togo
      {
        qs, left := NextItem(qs, n - togo, left);
        if qs == NULL {
          return;
        }
        togo := togo - 1;
      }
    }

    // scull_follow: the n-th item, extending the list as needed; NULL exactly when memory
    // runs out first. `left` allocations are still to succeed.
    method Follow(n: nat, granted: nat) returns (qs: Ptr, left: nat)
      requires Valid()
      modifies this`mem, this`data, this`l
      ensures Valid() && Value() == old(Value())
      ensures n < old(|l.items|) ==> mem == old(mem) && data == old(data) && l == old(l)
      ensures qs == NULL <==> old(|l.items|) + granted <= n
      ensures qs != NULL ==> n < |l.items| && qs == l.items[n]
      ensures qs != NULL ==> left == granted - if n < old(|l.items|) then 0 else n + 1 - old(|l.items|)
      ensures |l.items| == if n < old(|l.items|) then old(|l.items|) else Min(n + 1, old(|l.items|) + granted)
      ensures forall i: nat :: TableOf(i) == old(TableOf(i))
    {
      qs, left := data, granted;
      if l.items != [] { ItemFacts(mem, l, quantum, qset, 0); }
      if qs == NULL {
        qs := AppendItem(NULL, left > 0);
        if qs == NULL {
          return;
        }
        left := left - 1;
      }
      qs, left := Advance(qs, n, left);
    }

    method AddTableFor(dptr: Ptr, ghost i: nat, granted: bool)
      requires Valid() && i < |l.items| && dptr == l.items[i] && l.tables[i] == NULL
      modifies this`mem, this`l
      ensures Valid() && Value() == old(Value()) && l.items == old(l.items)
      ensures l.tables[i] != NULL <==> granted
    {
      ItemFacts(mem, l, quantum, qset, i);
      var p := Kmalloc(Table(seq(qset, _ => NULL)), granted);
      if p == NULL {
        return;
      }
      TableAdded(old(mem), l, quantum, qset, i, p);
      mem := mem[dptr := mem[dptr].(data := p)];
      assert mem == AddTable(old(mem), l, i, p, qset);
      l := l.WithTable(i, p, qset);
    }

    // Memory nobody has written to.
    method Unspecified(n: nat) returns (bytes: seq<byte>)
      ensures |bytes| == n
    {
      assert |seq(n, _ => 0 as byte)| == n;
      bytes :| |bytes| == n;
    }

    method AddQuantumFor(table: Ptr, ghost i: nat, s: nat, granted: bool) returns (p: Ptr, ghost base: seq<byte>)
      requires Valid() && i < |l.items| && l.tables[i] == table != NULL
      requires s < |l.slots[i]| && l.slots[i][s] == NULL
      modifies this`mem, this`l
      ensures Valid() && l.items == old(l.items)
      ensures p == NULL <==> !granted
      ensures p == NULL ==> Value() == old(Value())
      ensures p != NULL ==> l.Holds(i, s) && p == l.slots[i][s] && |base| == quantum
      ensures p != NULL ==> Value() == old(Value()).(quanta := old(Value()).quanta[(i, s) := base])
    {
      ItemFacts(mem, l, quantum, qset, i);
      var junk := Unspecified(quantum);
      base := junk;
      p := Kmalloc(Quantum(junk), granted);
      if p == NULL {
        return;
      }
      QuantumAdded(old(mem), l, quantum, qset, i, s, p, junk);
      mem := mem[table := Table(mem[table].slots[s := p])];
      assert mem == AddQuantum(old(mem), l, i, s, p, junk);
      l := l.WithQuantum(i, s, p);
    }

    // The allocations a slot of an item on the list still needs: table and quantum.
    ghost function MissingAt(item: nat, slot: nat): nat
      reads this
    {
      if l.Holds(item, slot) then 0 else if TableOf(item) != NULL then 1 else 2
    }

    // The quantum of one slot of a table, allocated if it is missing. The contents of a
    // fresh quantum are whatever kmalloc returns.
    method QuantumOf(table: Ptr, ghost i: nat, s: nat, granted: bool) returns (p: Ptr, ghost base: seq<byte>)
      requires Valid() && i < |l.items| && l.tables[i] == table != NULL && s < qset
      modifies this`mem, this`l
      ensures Valid() && l.items == old(l.items)
      ensures p == NULL <==> !granted && !old(l).Holds(i, s)
      ensures p == NULL ==> Value() == old(Value()) && (i, s) !in Value().quanta
      ensures p != NULL ==> l.Holds(i, s) && p == l.slots[i][s] && |base| == quantum
      ensures p != NULL ==> Value() == old(Value()).(quanta := old(Value()).quanta[(i, s) := base])
      ensures p != NULL && (i, s) in old(Value()).quanta ==> base == old(Value()).quanta[(i, s)]
    {
      base := [];
      ItemFacts(mem, l, quantum, qset, i);
      p := mem[table].slots[s];
      if p == NULL {
        p, base := AddQuantumFor(table, i, s, granted);
      } else {
        QuantumFacts(mem, l, quantum, qset, i, s);
        base := mem[p].bytes;
      }
    }

    // The table and the quantum for one slot of an item, allocated where missing.
    method Provide(dptr: Ptr, ghost i: nat, s: nat, granted: nat) returns (p: Ptr, ghost base: seq<byte>)
      requires Valid() && i < |l.items| && dptr == l.items[i] && s < qset
      modifies this`mem, this`l
      ensures Valid() && l.items == old(l.items)
      ensures p == NULL <==> granted < old(MissingAt(i, s))
      ensures granted >= 2 ==> p != NULL
      ensures p == NULL ==> Value() == old(Value()) && (i, s) !in Value().quanta
      ensures p != NULL ==> l.Holds(i, s) && p == l.slots[i][s] && |base| == quantum
      ensures p != NULL ==> Value() == old(Value()).(quanta := old(Value()).quanta[(i, s) := base])
      ensures p != NULL && (i, s) in old(Value()).quanta ==> base == old(Value()).quanta[(i, s)]
    {
      var left: int := granted;
      ItemFacts(mem, l, quantum, qset, i);
      if mem[dptr].data == NULL {
        AddTableFor(dptr, i, left > 0);
        ItemFacts(mem, l, quantum, qset, i);
        if left == 0 {
          return NULL, [];
        }
        left := left - 1;
      }
      p, base := QuantumOf(mem[dptr].data, i, s, left > 0);
    }

    // How many allocations a write at pos needs: list items, table and quantum.
    ghost function Missing(pos: nat): nat
      requires Valid()
      reads this
    {
      var (item, slot) := Value().Key(pos);
      (if item < |l.items| then 0 else item + 1 - |l.items|) + MissingAt(item, slot)
    }

    // Nothing is missing for a byte stored; else a quantum, a table if the item has none,
    // and the items up to it. Never more than the position can explain.
    lemma MissingIs(pos: nat)
      requires Valid()
      ensures 0 < quantum * qset
      ensures var item := pos / (quantum * qset);
              Missing(pos) ==
                if Value().ByteAt(pos).Some? then 0 else
                (if item < |l.items| then 0 else item + 1 - |l.items|) + (if TableOf(item) == NULL then 2 else 1)
      ensures Missing(pos) <= pos + 3
    {
      Positive(quantum, qset);
      QuotientIsSmaller(pos, quantum * qset);
    }

    // The first half of scull_write: find the quantum for pos, allocating what is missing.
    method Reserve(pos: nat, granted: nat) returns (p: Ptr, ghost base: seq<byte>)
      requires Valid()
      modifies this`mem, this`data, this`l
      ensures Valid()
      ensures p == NULL <==> granted < old(Missing(pos))
      ensures p == NULL ==> Value() == old(Value()) && Value().ByteAt(pos).None?
      ensures p != NULL ==> old(Value()).Base(pos, base)
      ensures p != NULL ==> var k := old(Value()).Key(pos);
                            && l.Holds(k.0, k.1) && p == l.slots[k.0][k.1] && k.0 < |l.items|
                            && Value() == old(Value()).(quanta := old(Value()).quanta[k := base])
    {
      base := [];
      Decompose(Value(), pos);
      Positive(quantum, qset);
      var itemsize := quantum * qset;
      var item, rest := pos / itemsize, pos % itemsize;
      var dptr, left := Follow(item, granted);
      if dptr == NULL {
        return NULL, base;
      }
      p, base := Provide(dptr, item, rest / quantum, left);
    }

    // copy_from_user into the quantum at p.
    method CopyIn(p: Ptr, ghost i: nat, ghost s: nat, at: nat, bytes: seq<byte>)
      requires Valid() && l.Holds(i, s) && p == l.slots[i][s] && at + |bytes| <= quantum
      modifies this`mem
      ensures Valid()
      ensures (i, s) in old(Value()).quanta && |old(Value()).quanta[(i, s)]| == quantum
      ensures Value() == old(Value()).(quanta :=
                           old(Value()).quanta[(i, s) := Overlay(old(Value()).quanta[(i, s)], at, bytes)])
    {
      QuantumFacts(mem, l, quantum, qset, i, s);
      var patched := Overlay(mem[p].bytes, at, bytes);
      BytesChanged(mem, l, quantum, qset, i, s, patched);
      mem := mem[p := Quantum(patched)];
    }

    // copy_from_user at the offset for pos.
    method CopyAt(p: Ptr, ghost pos: nat, ghost base: seq<byte>, ghost was: Store, at: nat, bytes: seq<byte>)
      requires Valid() && was.Valid() && was.Base(pos, base) && at == was.Offset(pos) && at + |bytes| <= was.quantum
      requires var k := was.Key(pos); l.Holds(k.0, k.1) && p == l.slots[k.0][k.1]
      requires Value() == was.(quanta := was.quanta[was.Key(pos) := base])
      modifies this`mem
      ensures Valid() && Value() == was.Patch(pos, base, bytes)
    {
      ghost var k := was.Key(pos);
      CopyIn(p, k.0, k.1, at, bytes);
      assert was.quanta[k := base][k := Overlay(base, at, bytes)] == was.quanta[k := Overlay(base, at, bytes)];
    }

    // Update the size after a write that ends at pos + count.
    method GrowTo(pos: nat, count: nat)
      requires Valid() && Value().Key(pos).0 < |l.items| && Value().Offset(pos) + count <= quantum
      modifies this`size
      ensures Valid() && size == if old(size) < pos + count then pos + count else old(size)
    {
      QuantumEndsInItem(Value(), pos, count);
      ghost var i, itemsize := Value().Key(pos).0, quantum * qset;
      if i + 1 < |l.items| { MultipleStep(i + 1, |l.items|, itemsize); }
      if size < pos + count {
        size := pos + count;
      }
    }

    method StoreAt(p: Ptr, pos: nat, ghost base: seq<byte>, ghost was: Store, at: nat, buf: seq<byte>, count: nat)
      requires Valid() && was.Valid() && was.Base(pos, base)
      requires at == was.Offset(pos) && count == was.Reach(pos, |buf|)
      requires var k := was.Key(pos); l.Holds(k.0, k.1) && p == l.slots[k.0][k.1] && k.0 < |l.items|
      requires Value() == was.(quanta := was.quanta[was.Key(pos) := base])
      modifies this`mem, this`size
      ensures Valid() && Value() == was.Write(pos, base, buf)
    {
      CopyAt(p, pos, base, was, at, buf[..count]);
      GrowTo(pos, count);
    }

    // The same copy faulting after n bytes.
    method FaultAt(p: Ptr, ghost pos: nat, ghost base: seq<byte>, ghost was: Store, at: nat, bytes: seq<byte>, n: nat)
      returns (ghost landed: seq<byte>)
      requires Valid() && was.Valid() && was.Base(pos, base) && at == was.Offset(pos) && at + |bytes| <= was.quantum
      requires var k := was.Key(pos); l.Holds(k.0, k.1) && p == l.slots[k.0][k.1]
      requires Value() == was.(quanta := was.quanta[was.Key(pos) := base]) && n <= |bytes|
      modifies this`mem
      ensures |landed| == |bytes| && bytes[..n] <= landed
      ensures Valid() && Value() == was.Patch(pos, base, landed)
    {
      var left := Unspecified(|bytes| - n);
      landed := bytes[..n] + left;
      CopyAt(p, pos, base, was, at, bytes[..n] + left);
    }

    // The second half of scull_write: the copy into the quantum found, and the size.
    method WriteInto(p: Ptr, pos: nat, ghost base: seq<byte>, ghost was: Store, buf: seq<byte>, fault: Option<nat>)
      returns (r: WriteResult, ghost landed: seq<byte>)
      requires Valid() && was.Valid() && was.Base(pos, base)
      requires var k := was.Key(pos); l.Holds(k.0, k.1) && p == l.slots[k.0][k.1] && k.0 < |l.items|
      requires Value() == was.(quanta := was.quanta[was.Key(pos) := base])
      modifies this`mem, this`size
      ensures Valid() && !r.NoMemory?
      ensures r.WriteFault? <==> fault.Some? && fault.value < was.Reach(pos, |buf|)
      ensures r.WriteFault? ==> fault == Some(r.copied)
                                && |landed| == was.Reach(pos, |buf|) && buf[..r.copied] <= landed
                                && Value() == was.Patch(pos, base, landed)
      ensures r.Wrote? ==> r.count == was.Reach(pos, |buf|) && Value() == was.Write(pos, base, buf)
    {
      landed := [];
      Positive(quantum, qset);
      var q_pos := pos % (quantum * qset) % quantum;
      var count := |buf|;
      if count > quantum - q_pos {
        count := quantum - q_pos;
      }
      assert count == was.Reach(pos, |buf|);
      if fault.Some? && fault.value < count {
        landed := FaultAt(p, pos, base, was, q_pos, buf[..count], fault.value);
        return WriteFault(fault.value), landed;
      }
      StoreAt(p, pos, base, was, q_pos, buf, count);
      r := Wrote(count);
    }

    // scull_write: store what fits in the quantum at pos. `fault` is the byte at which
    // copy_from_user faults, if there is one; what it leaves in the rest of the range is
    // unspecified (kernels fill it with zeros). `landed` is all it leaves.
    method Write(pos: nat, buf: seq<byte>, fault: Option<nat>, granted: nat)
      returns (r: WriteResult, ghost base: seq<byte>, ghost landed: seq<byte>)
      requires Valid()
      modifies this`mem, this`data, this`l, this`size
      ensures Valid()
      ensures r.NoMemory? <==> granted < old(Missing(pos))
      ensures 0 < quantum * qset
      ensures var item := pos / (quantum * qset);
              r.NoMemory? <==>
                old(Value()).ByteAt(pos).None?
                && granted < (if item < old(|l.items|) then 0 else item + 1 - old(|l.items|))
                             + (if old(TableOf(item)) == NULL then 2 else 1)
      ensures granted >= pos + 3 || old(Value()).ByteAt(pos).Some? ==> !r.NoMemory?
      ensures granted == 0 && old(Value()).ByteAt(pos).None? ==> r.NoMemory?
      ensures r.NoMemory? ==> Value() == old(Value()) && Value().ByteAt(pos).None?
      ensures !r.NoMemory? ==> old(Value()).Base(pos, base)
      ensures !r.NoMemory? ==> (r.WriteFault? <==> fault.Some? && fault.value < old(Value()).Reach(pos, |buf|))
      ensures r.WriteFault? ==> fault == Some(r.copied) && r.copied < old(Value()).Reach(pos, |buf|)
      ensures r.WriteFault? ==> |landed| == old(Value()).Reach(pos, |buf|) && buf[..r.copied] <= landed
                                && Value() == old(Value()).Patch(pos, base, landed)
      ensures r.Wrote? ==> r.count == old(Value()).Reach(pos, |buf|)
      ensures r.Wrote? ==> r.count <= |buf| && pos % quantum + r.count <= quantum
      ensures r.Wrote? && r.count < |buf| ==> pos % quantum + r.count == quantum
      ensures r.Wrote? ==> Value() == old(Value()).Write(pos, base, buf)
    {
      MissingIs(pos);
      ghost var was := Value();
      var p;
      p, base := Reserve(pos, granted);
      if p == NULL {
        return NoMemory, base, [];
      }
      r, landed := WriteInto(p, pos, base, was, buf, fault);
      if r.Wrote? { ReachStops(was, pos, |buf|, r.count, quantum); }
    }

    lemma ItemBelowSize(item: nat, pos: nat)
      requires 0 < quantum && 0 < qset && pos < size <= |l.items| * (quantum * qset)
      requires item == pos / (quantum * qset)
      ensures item < |l.items|
    {
      var itemsize := quantum * qset;
      Positive(quantum, qset);
      DivMod(pos, itemsize);
      if |l.items| <= item {
        if |l.items| < item { MultipleStep(|l.items|, item, itemsize); }
      }
    }

    method ReadWithin(pos: nat, count: nat, fault: bool) returns (r: ReadResult)
      requires Valid()
      modifies this`mem, this`data, this`l
      ensures Valid() && mem == old(mem) && data == old(data) && l == old(l)
      ensures r == if fault && Value().Read(pos, count) != [] then ReadFault else Returned(Value().Read(pos, count))
    {
      if pos >= size {
        return Returned([]);
      }
      var n := count;
      if pos + n > size {
        n := size - pos;
      }
      ghost var was := Value();
      Decompose(was, pos);
      Positive(quantum, qset);
      var itemsize := quantum * qset;
      var item, rest := pos / itemsize, pos % itemsize;
      var s_pos, q_pos := rest / quantum, rest % quantum;
      ItemBelowSize(item, pos);
      var dptr, _ := Follow(item, 0);
      ItemFacts(mem, l, quantum, qset, item);
      if dptr == NULL || mem[dptr].data == NULL || mem[mem[dptr].data].slots[s_pos] == NULL {
        return Returned([]);
      }
      QuantumFacts(mem, l, quantum, qset, item, s_pos);
      if n > quantum - q_pos {
        n := quantum - q_pos;
      }
      if fault && n > 0 {
        return ReadFault;
      }
      var q := mem[mem[mem[dptr].data].slots[s_pos]].bytes;
      r := Returned(q[q_pos..q_pos + n]);
    }

    // scull_read. It leaves the device untouched: scull_follow finds every item it needs.
    method Read(pos: nat, count: nat, fault: bool) returns (r: ReadResult)
      requires Valid()
      modifies this`mem, this`data, this`l
      ensures Valid() && mem == old(mem) && data == old(data) && l == old(l)
      ensures r == if fault && Value().Read(pos, count) != [] then ReadFault else Returned(Value().Read(pos, count))
      ensures r.Returned? ==> |r.bytes| <= count && pos % quantum + |r.bytes| <= quantum
      ensures r.Returned? && |r.bytes| < count && pos < size && Value().ByteAt(pos).Some? ==>
                pos + |r.bytes| == size || pos % quantum + |r.bytes| == quantum
    {
      ghost var was := Value();
      r := ReadWithin(pos, count, fault);
      if r.Returned? { ReadStops(was, pos, count, |r.bytes|, quantum); }
    }

    method FreeSlot(ghost all: Memory, ghost j: nat, dptr: Ptr, i: nat)
      requires QuantumList.Valid(all, l, quantum, qset) && j < |l.items| && dptr == l.items[j] && i < qset
      requires l.tables[j] != NULL && mem == Rest(all, l, j, i)
      modifies this`mem
      ensures mem == Rest(all, l, j, i + 1)
    {
      ItemFacts(all, l, quantum, qset, j);
      CellsOfItem(all, l, quantum, qset, j);
      RestWithoutSlot(all, l, quantum, qset, j, i);
      Kfree(mem[mem[dptr].data].slots[i]);
    }

    // The body of scull_trim's loop: one item with all it holds. Every read of a cell is of a
    // cell still allocated, or it would not be defined.
    method FreeItem(ghost all: Memory, ghost j: nat, dptr: Ptr) returns (next: Ptr)
      requires QuantumList.Valid(all, l, quantum, qset) && j < |l.items| && dptr == l.items[j]
      requires mem == Rest(all, l, j, 0)
      modifies this`mem
      ensures mem == Rest(all, l, j + 1, 0)
      ensures next == l.ItemPtr(j + 1) && (next == NULL <==> j + 1 == |l.items|)
    {
      ItemFacts(all, l, quantum, qset, j);
      CellsOfItem(all, l, quantum, qset, j);
      if mem[dptr].data != NULL {
        var i := 0;
        while i < qset
          invariant 0 <= i <= qset
          invariant mem == Rest(all, l, j, i)
        {
          FreeSlot(all, j, dptr, i);
          i := i + 1;
        }
        Kfree(mem[dptr].data);
        mem := mem[dptr := mem[dptr].(data := NULL)];
      }
      next := mem[dptr].next;
      Kfree(dptr);
      RestWithoutItem(all, l, quantum, qset, j);
      assert mem == Rest(all, l, j + 1, 0);
    }

    // scull_trim: free every quantum, table and item, and start again with the current
    // module parameters.
    method Trim(newQuantum: nat, newQset: nat)
      requires Valid() && 0 < newQuantum && 0 < newQset
      modifies this
      ensures Valid() && mem == map[] && size == 0 && data == NULL
      ensures quantum == newQuantum && qset == newQset
    {
      ghost var all := mem;
      ghost var j := 0;
      var dptr := data;
      if l.items != [] { ItemFacts(mem, l, quantum, qset, 0); }
      RestAtTheEnds(all, l, quantum, qset);
      while dptr != NULL
        invariant QuantumList.Valid(all, l, quantum, qset) && j <= |l.items|
        invariant l == old(l) && quantum == old(quantum) && qset == old(qset)
        invariant dptr == l.ItemPtr(j) && (dptr == NULL <==> j == |l.items|)
        invariant mem == Rest(all, l, j, 0)
        decreases |l.items| - j
      {
        dptr := FreeItem(all, j, dptr);
        j := j + 1;
      }
      size, quantum, qset, data, l := 0, newQuantum, newQset, NULL, EMPTY;
    }
  }
}
