// The page-based scullp device at order 0, and its memory mappings (ldd/scullp/main.c,
// ldd/scullp/mmap.c). The device structure is itself the first list item, so it lives in
// the memory map at a fixed address and is never freed.
module ScullpDevice {
  import opened Common
  import opened QuantumList
  import opened SparseStore

  datatype WriteResult =
    | NoMemory
    | WriteFault(copied: nat)
    | Wrote(count: nat)

  datatype ReadResult = ReadFault | Returned(bytes: seq<byte>)

  const DEV: Ptr := 1
  const SIGBUS: Ptr := NULL   // what nopage returns where there is no page

  // A page as __get_free_pages and memset leave it.
  function ZeroPage(page: nat): seq<byte> {
    seq(page, _ => 0)
  }

  // Two memories agree, but for some addresses.
  ghost predicate SameBut(m: Memory, n: Memory, but: set<Ptr>) {
    forall p :: p !in but ==> (p in m <==> p in n) && (p in m && p in n ==> m[p] == n[p])
  }

  lemma SameQuantum(s: Store, pos: nat, p: nat)
    requires s.Valid() && p / s.quantum == pos / s.quantum
    ensures s.Key(p) == s.Key(pos) && p - pos == s.Offset(p) - s.Offset(pos)
  {
    OffsetIsRemainder(s, pos);
    DivMod(p, s.quantum);
    DivMod(pos, s.quantum);
    WithinQuantum(s, pos, p);
  }

  lemma FreshByteIsZero(s: Store, pos: nat, buf: seq<byte>, p: nat)
    requires s.Valid() && p / s.quantum == pos / s.quantum && !(pos <= p < pos + s.Reach(pos, |buf|))
    ensures s.Write(pos, ZeroPage(s.quantum), buf).ByteAt(p) == Some(0)
  {
    var t := s.Write(pos, ZeroPage(s.quantum), buf);
    SameQuantum(s, pos, p);
    assert t.Key(p) == s.Key(p) && t.Offset(p) == s.Offset(p);
  }

  // What a write leaves around its bytes in a page it had to allocate.
  lemma FreshIsZero(s: Store, pos: nat, buf: seq<byte>)
    requires s.Valid()
    ensures var t := s.Write(pos, ZeroPage(s.quantum), buf);
            forall p: nat {:trigger t.ByteAt(p)} ::
              p / s.quantum == pos / s.quantum && !(pos <= p < pos + s.Reach(pos, |buf|)) ==> t.ByteAt(p) == Some(0)
  {
    forall p: nat | p / s.quantum == pos / s.quantum && !(pos <= p < pos + s.Reach(pos, |buf|))
      ensures s.Write(pos, ZeroPage(s.quantum), buf).ByteAt(p) == Some(0)
    {
      FreshByteIsZero(s, pos, buf, p);
    }
  }

  class Device {
    const page: nat
    var qset: nat
    var size: nat
    var vmas: nat
    var mem: Memory
    ghost var l: Layout
    ghost var live: set<int>     // the mappings in existence

    ghost predicate Valid()
      reads this
    {
      && 0 < page && 0 < qset
      && QuantumList.Valid(mem, l, page, qset)
      && l.ItemPtr(0) == DEV
      && size <= |l.items| * (page * qset)
      && vmas == |live|
    }

    constructor (pageSize: nat, qsetSize: nat)
      requires 0 < pageSize && 0 < qsetSize
      ensures Valid() && page == pageSize && qset == qsetSize && size == 0 && live == {} && |l.items| == 1
    {
      page, qset, size, vmas := pageSize, qsetSize, 0, 0;
      mem := map[DEV := Item(NULL, NULL)];
      l := EMPTY.WithItem(DEV);
      live := {};
    }

    ghost function Value(): (s: Store)
      requires Valid()
      reads this
      ensures s.Valid()
    {
      ContentsAreQuanta(mem, l, page, qset);
      Store(page, qset, size, Contents(mem, l))
    }

    // The pages of the device, by item and slot.
    ghost function Pages(): imap<(nat, nat), Ptr>
      reads this
    {
      imap k: (nat, nat) | l.Holds(k.0, k.1) :: l.slots[k.0][k.1]
    }

    // The table of an item, if it has one, or exists.
    ghost function TableOf(i: nat): Ptr
      reads this
    {
      if i < |l.tables| then l.tables[i] else NULL
    }

    // Every page of `was` is still in its place.
    ghost predicate Holding(was: imap<(nat, nat), Ptr>)
      reads this
    {
      forall k :: k in was ==> k in Pages() && Pages()[k] == was[k]
    }

    method Allocate(cell: Cell, granted: bool) returns (p: Ptr)
      requires NULL !in mem
      modifies this`mem
      ensures p == NULL <==> !granted
      ensures p == NULL ==> mem == old(mem)
      ensures p != NULL ==> p !in old(mem) && mem == old(mem)[p := cell]
    {
      if !granted {
        return NULL;
      }
      ghost var spare := SpareAddress(mem.Keys);
      assert spare != NULL && spare !in mem;
      p :| p != NULL && p !in mem;
      mem := mem[p := cell];
    }

    method Kfree(p: Ptr)
      requires p == NULL || p in mem
      modifies this`mem
      ensures mem == old(mem) - {p}
    {
      mem := mem - {p};
    }

    // The kmalloc and memset of scullp_follow, which takes for granted that memory is there.
    method AppendItem(last: Ptr)
      requires Valid() && last == l.items[|l.items| - 1]
      modifies this`mem, this`l
      ensures Valid() && Value() == old(Value()) && Holding(old(Pages()))
      ensures old(l.items) < l.items && |l.items| == old(|l.items|) + 1
      ensures forall i: nat :: TableOf(i) == old(TableOf(i))
    {
      ghost var n := |l.items|;
      ItemFacts(mem, l, page, qset, n - 1);
      var p := Allocate(Item(NULL, NULL), true);
      ItemAdded(old(mem), l, page, qset, p);
      mem := mem[last := mem[last].(next := p)];
      assert mem == LinkItem(old(mem), l, p);
      l := l.WithItem(p);
      MultipleStep(n, n + 1, page * qset);
    }

    // One turn of scullp_follow's loop.
    method NextItem(ptr: Ptr, ghost i: nat) returns (next: Ptr)
      requires Valid() && i < |l.items| && ptr == l.items[i]
      modifies this`mem, this`l
      ensures Valid() && Value() == old(Value()) && Holding(old(Pages()))
      ensures i + 1 < old(|l.items|) ==> mem == old(mem) && l == old(l)
      ensures |l.items| == if i + 1 < old(|l.items|) then old(|l.items|) else i + 2
      ensures next == l.items[i + 1]
      ensures forall k: nat :: TableOf(k) == old(TableOf(k))
    {
      ItemFacts(mem, l, page, qset, i);
      if mem[ptr].next == NULL {
        AppendItem(ptr);
        ItemFacts(mem, l, page, qset, i);
      }
      next := mem[ptr].next;
    }

    // scullp_follow
    method Follow(n: nat) returns (ptr: Ptr)
      requires Valid()
      modifies this`mem, this`l
      ensures Valid() && Value() == old(Value()) && Holding(old(Pages()))
      ensures n < old(|l.items|) ==> mem == old(mem) && l == old(l)
      ensures n < |l.items| && ptr == l.items[n]
      ensures forall i: nat :: TableOf(i) == old(TableOf(i))
      ensures |l.items| == if n < old(|l.items|) then old(|l.items|) else n + 1
    {
      ptr := DEV;
      var left := n;
      while left != 0
        invariant 0 <= left <= n && n - left < |l.items| && ptr == l.items[n - left]
        invariant Valid() && Value() == old(Value()) && Holding(old(Pages()))
        invariant forall i: nat :: TableOf(i) == old(TableOf(i))
        invariant n - left < old(|l.items|) ==> mem == old(mem) && l == old(l)
        invariant |l.items| == if n - left < old(|l.items|) then old(|l.items|) else n - left + 1
        decreases left
      {
        ptr := NextItem(ptr, n - left);
        left := left - 1;
      }
    }

    method AddTableFor(dptr: Ptr, ghost i: nat, granted: bool)
      requires Valid() && i < |l.items| && dptr == l.items[i] && l.tables[i] == NULL
      modifies this`mem, this`l
      ensures Valid() && Value() == old(Value()) && Holding(old(Pages())) && l.items == old(l.items)
      ensures l.tables[i] != NULL <==> granted
    {
      ItemFacts(mem, l, page, qset, i);
      var p := Allocate(Table(seq(qset, _ => NULL)), granted);
      if p == NULL {
        return;
      }
      TableAdded(old(mem), l, page, qset, i, p);
      mem := mem[dptr := mem[dptr].(data := p)];
      assert mem == AddTable(old(mem), l, i, p, qset);
      l := l.WithTable(i, p, qset);
    }

    method AddPageFor(table: Ptr, ghost i: nat, s: nat, granted: bool) returns (p: Ptr)
      requires Valid() && i < |l.items| && l.tables[i] == table != NULL
      requires s < |l.slots[i]| && l.slots[i][s] == NULL
      modifies this`mem, this`l
      ensures Valid() && Holding(old(Pages())) && l.items == old(l.items)
      ensures p == NULL <==> !granted
      ensures p == NULL ==> Value() == old(Value())
      ensures p != NULL ==> l.Holds(i, s) && p == l.slots[i][s]
      ensures p != NULL ==> Value() == old(Value()).(quanta := old(Value()).quanta[(i, s) := ZeroPage(page)])
    {
      ItemFacts(mem, l, page, qset, i);
      p := Allocate(Quantum(ZeroPage(page)), granted);
      if p == NULL {
        return;
      }
      QuantumAdded(old(mem), l, page, qset, i, s, p, ZeroPage(page));
      mem := mem[table := Table(mem[table].slots[s := p])];
      assert mem == AddQuantum(old(mem), l, i, s, p, ZeroPage(page));
      l := l.WithQuantum(i, s, p);
    }

    ghost function MissingAt(item: nat, slot: nat): nat
      reads this
    {
      if l.Holds(item, slot) then 0 else if TableOf(item) != NULL then 1 else 2
    }

    // How many allocations that may fail a write at pos needs: table and page.
    ghost function Missing(pos: nat): nat
      requires Valid()
      reads this
    {
      MissingAt(Value().Key(pos).0, Value().Key(pos).1)
    }

    ghost function Found(s: Store, k: (nat, nat)): seq<byte> {
      if k in s.quanta then s.quanta[k] else ZeroPage(s.quantum)
    }

    // What a write finds at pos: the stored page, or a page of zeros.
    ghost function BaseOf(s: Store, pos: nat): seq<byte>
      requires s.Valid()
    {
      Found(s, s.Key(pos))
    }

    // The length of the list once the item for pos is on it.
    ghost function ItemsFor(s: Store, items: nat, pos: nat): nat
      requires s.Valid()
    {
      if s.Key(pos).0 < items then items else s.Key(pos).0 + 1
    }

    // The page of one slot of a table, allocated if it is missing.
    method PageOf(table: Ptr, ghost i: nat, slot: nat, granted: bool) returns (p: Ptr)
      requires Valid() && i < |l.items| && l.tables[i] == table != NULL && slot < qset
      modifies this`mem, this`l
      ensures Valid() && Holding(old(Pages())) && l.items == old(l.items)
      ensures p == NULL <==> !granted && !old(l).Holds(i, slot)
      ensures p == NULL ==> Value() == old(Value()) && (i, slot) !in Value().quanta
      ensures p != NULL ==> l.Holds(i, slot) && p == l.slots[i][slot]
      ensures p != NULL ==> var was := old(Value());
                            Value() == was.(quanta := was.quanta[(i, slot) := Found(was, (i, slot))])
    {
      ItemFacts(mem, l, page, qset, i);
      p := mem[table].slots[slot];
      if p == NULL {
        p := AddPageFor(table, i, slot, granted);
      } else {
        QuantumFacts(mem, l, page, qset, i, slot);
      }
    }

    // Table and page of one slot, allocated where missing; `granted` allocations succeed.
    method Provide(dptr: Ptr, ghost i: nat, slot: nat, granted: nat) returns (p: Ptr)
      requires Valid() && i < |l.items| && dptr == l.items[i] && slot < qset
      modifies this`mem, this`l
      ensures Valid() && Holding(old(Pages())) && l.items == old(l.items)
      ensures p == NULL <==> granted < old(MissingAt(i, slot))
      ensures p == NULL ==> Value() == old(Value()) && (i, slot) !in Value().quanta
      ensures p != NULL ==> l.Holds(i, slot) && p == l.slots[i][slot]
      ensures p != NULL ==> var was := old(Value());
                            Value() == was.(quanta := was.quanta[(i, slot) := Found(was, (i, slot))])
    {
      var left: int := granted;
      ItemFacts(mem, l, page, qset, i);
      if mem[dptr].data == NULL {
        AddTableFor(dptr, i, left > 0);
        ItemFacts(mem, l, page, qset, i);
        if left == 0 {
          return NULL;
        }
        left := left - 1;
      }
      p := PageOf(mem[dptr].data, i, slot, left > 0);
    }

    // The first half of scullp_write: the page for pos.
    method Reserve(pos: nat, granted: nat) returns (p: Ptr)
      requires Valid()
      modifies this`mem, this`l
      ensures Valid() && Holding(old(Pages()))
      ensures |l.items| == ItemsFor(old(Value()), old(|l.items|), pos)
      ensures p == NULL <==> granted < old(Missing(pos))
      ensures p == NULL ==> Value() == old(Value()) && Value().ByteAt(pos).None?
      ensures p != NULL ==> var was := old(Value()); var k := was.Key(pos);
                            && l.Holds(k.0, k.1) && p == l.slots[k.0][k.1] && k.0 < |l.items|
                            && Value() == was.(quanta := was.quanta[k := BaseOf(was, pos)])
    {
      Decompose(Value(), pos);
      Positive(page, qset);
      var itemsize := page * qset;
      var item, rest := pos / itemsize, pos % itemsize;
      var dptr := Follow(item);
      p := Provide(dptr, item, rest / page, granted);
    }

    method CopyAt(p: Ptr, ghost pos: nat, ghost was: Store, at: nat, bytes: seq<byte>)
      requires Valid() && was.Valid() && at == was.Offset(pos) && at + |bytes| <= was.quantum
      requires var k := was.Key(pos); l.Holds(k.0, k.1) && p == l.slots[k.0][k.1]
      requires Value() == was.(quanta := was.quanta[was.Key(pos) := BaseOf(was, pos)])
      modifies this`mem
      ensures Valid() && Value() == was.Patch(pos, BaseOf(was, pos), bytes)
    {
      ghost var k, base := was.Key(pos), BaseOf(was, pos);
      QuantumFacts(mem, l, page, qset, k.0, k.1);
      var patched := Overlay(mem[p].bytes, at, bytes);
      BytesChanged(mem, l, page, qset, k.0, k.1, patched);
      mem := mem[p := Quantum(patched)];
      assert was.quanta[k := base][k := patched] == was.quanta[k := patched];
    }

    // A copy that faults after n bytes leaves the rest of its range unspecified.
    method FaultAt(p: Ptr, ghost pos: nat, ghost was: Store, at: nat, bytes: seq<byte>, n: nat)
      returns (ghost landed: seq<byte>)
      requires Valid() && was.Valid() && at == was.Offset(pos) && at + |bytes| <= was.quantum && n <= |bytes|
      requires var k := was.Key(pos); l.Holds(k.0, k.1) && p == l.slots[k.0][k.1]
      requires Value() == was.(quanta := was.quanta[was.Key(pos) := BaseOf(was, pos)])
      modifies this`mem
      ensures |landed| == |bytes| && bytes[..n] <= landed
      ensures Valid() && Value() == was.Patch(pos, BaseOf(was, pos), landed)
    {
      var rest := |bytes| - n;
      assert |seq(rest, _ => 0 as byte)| == rest;
      var left: seq<byte> :| |left| == rest;
      landed := bytes[..n] + left;
      CopyAt(p, pos, was, at, bytes[..n] + left);
    }

    method GrowTo(pos: nat, count: nat)
      requires Valid() && Value().Key(pos).0 < |l.items| && Value().Offset(pos) + count <= page
      modifies this`size
      ensures Valid() && size == if old(size) < pos + count then pos + count else old(size)
    {
      QuantumEndsInItem(Value(), pos, count);
      ghost var i, itemsize := Value().Key(pos).0, page * qset;
      if i + 1 < |l.items| { MultipleStep(i + 1, |l.items|, itemsize); }
      if size < pos + count {
        size := pos + count;
      }
    }

    method StoreAt(p: Ptr, pos: nat, ghost was: Store, at: nat, buf: seq<byte>, count: nat)
      requires Valid() && was.Valid() && at == was.Offset(pos) && count == was.Reach(pos, |buf|)
      requires var k := was.Key(pos); l.Holds(k.0, k.1) && p == l.slots[k.0][k.1] && k.0 < |l.items|
      requires Value() == was.(quanta := was.quanta[was.Key(pos) := BaseOf(was, pos)])
      modifies this`mem, this`size
      ensures Valid() && Value() == was.Write(pos, BaseOf(was, pos), buf)
    {
      CopyAt(p, pos, was, at, buf[..count]);
      GrowTo(pos, count);
    }

    // The second half of scullp_write: the copy into the page found, and the size.
    method WriteInto(p: Ptr, pos: nat, ghost was: Store, buf: seq<byte>, fault: Option<nat>)
      returns (r: WriteResult, ghost landed: seq<byte>)
      requires Valid() && was.Valid()
      requires var k := was.Key(pos); l.Holds(k.0, k.1) && p == l.slots[k.0][k.1] && k.0 < |l.items|
      requires Value() == was.(quanta := was.quanta[was.Key(pos) := BaseOf(was, pos)])
      modifies this`mem, this`size
      ensures Valid() && !r.NoMemory?
      ensures r.WriteFault? <==> fault.Some? && fault.value < was.Reach(pos, |buf|)
      ensures r.WriteFault? ==> fault == Some(r.copied)
                                && |landed| == was.Reach(pos, |buf|) && buf[..r.copied] <= landed
                                && Value() == was.Patch(pos, BaseOf(was, pos), landed)
      ensures r.Wrote? ==> r.count == was.Reach(pos, |buf|) && Value() == was.Write(pos, BaseOf(was, pos), buf)
    {
      landed := [];
      Positive(page, qset);
      var q_pos := pos % (page * qset) % page;
      var count := |buf|;
      if count > page - q_pos {
        count := page - q_pos;
      }
      if fault.Some? && fault.value < count {
        landed := FaultAt(p, pos, was, q_pos, buf[..count], fault.value);
        return WriteFault(fault.value), landed;
      }
      StoreAt(p, pos, was, q_pos, buf, count);
      r := Wrote(count);
    }

    // Nothing is missing for a byte stored; else a page, and a table if the item has none.
    lemma MissingIs(pos: nat)
      requires Valid()
      ensures 0 < page * qset
      ensures Missing(pos) == if Value().ByteAt(pos).Some? then 0
                              else if TableOf(pos / (page * qset)) == NULL then 2 else 1
    {
      Positive(page, qset);
    }

    // Reserve the page, then copy.
    method WriteAt(pos: nat, buf: seq<byte>, fault: Option<nat>, granted: nat)
      returns (r: WriteResult, ghost landed: seq<byte>)
      requires Valid()
      modifies this`mem, this`l, this`size
      ensures Valid() && Holding(old(Pages()))
      ensures |l.items| == ItemsFor(old(Value()), old(|l.items|), pos)
      ensures r.NoMemory? <==> granted < old(Missing(pos))
      ensures r.NoMemory? ==> Value() == old(Value()) && Value().ByteAt(pos).None?
      ensures !r.NoMemory? ==> (r.WriteFault? <==> fault.Some? && fault.value < old(Value()).Reach(pos, |buf|))
      ensures r.WriteFault? ==> fault == Some(r.copied) && r.copied < old(Value()).Reach(pos, |buf|)
      ensures r.WriteFault? ==> |landed| == old(Value()).Reach(pos, |buf|) && buf[..r.copied] <= landed
                                && Value() == old(Value()).Patch(pos, BaseOf(old(Value()), pos), landed)
      ensures r.Wrote? ==> r.count == old(Value()).Reach(pos, |buf|)
      ensures r.Wrote? ==> Value() == old(Value()).Write(pos, BaseOf(old(Value()), pos), buf)
    {
      var p := Reserve(pos, granted);
      if p == NULL {
        return NoMemory, [];
      }
      r, landed := WriteInto(p, pos, old(Value()), buf, fault);
    }

    // scullp_write. `fault` is the byte at which copy_from_user faults, if there is one;
    // `landed` is all it leaves in the range then.
    method Write(pos: nat, buf: seq<byte>, fault: Option<nat>, granted: nat)
      returns (r: WriteResult, ghost landed: seq<byte>)
      requires Valid()
      modifies this`mem, this`l, this`size
      ensures Valid() && Holding(old(Pages()))
      ensures |l.items| == ItemsFor(old(Value()), old(|l.items|), pos)
      ensures r.NoMemory? <==> granted < old(Missing(pos))
      ensures 0 < page * qset
      ensures r.NoMemory? <==>
                old(Value()).ByteAt(pos).None? && granted < if old(TableOf(pos / (page * qset))) == NULL then 2 else 1
      ensures granted >= 2 || old(Value()).ByteAt(pos).Some? ==> !r.NoMemory?
      ensures granted == 0 && old(Value()).ByteAt(pos).None? ==> r.NoMemory?
      ensures r.NoMemory? ==> Value() == old(Value()) && Value().ByteAt(pos).None?
      ensures !r.NoMemory? ==> (r.WriteFault? <==> fault.Some? && fault.value < old(Value()).Reach(pos, |buf|))
      ensures r.WriteFault? ==> fault == Some(r.copied) && r.copied < old(Value()).Reach(pos, |buf|)
      ensures r.WriteFault? ==> |landed| == old(Value()).Reach(pos, |buf|) && buf[..r.copied] <= landed
                                && Value() == old(Value()).Patch(pos, BaseOf(old(Value()), pos), landed)
      ensures r.Wrote? ==> r.count == old(Value()).Reach(pos, |buf|)
      ensures r.Wrote? ==> r.count <= |buf| && pos % page + r.count <= page
      ensures r.Wrote? && r.count < |buf| ==> pos % page + r.count == page
      ensures r.Wrote? ==> Value() == old(Value()).Write(pos, BaseOf(old(Value()), pos), buf)
      ensures r.Wrote? && old(Value()).ByteAt(pos).None? ==>
                forall p: nat {:trigger Value().ByteAt(p)} ::
                  p / page == pos / page && !(pos <= p < pos + r.count) ==> Value().ByteAt(p) == Some(0)
    {
      ghost var was := Value();
      MissingIs(pos);
      r, landed := WriteAt(pos, buf, fault, granted);
      if r.Wrote? { ReachStops(was, pos, |buf|, r.count, page); }
      if r.Wrote? && was.ByteAt(pos).None? {
        FreshIsZero(was, pos, buf);
      }
    }

    // The second half of scullp_read: clip the count to the file and the page, then copy.
    method CopyOut(p: Ptr, pos: nat, count: nat, fault: bool) returns (r: ReadResult)
      requires Valid() && pos <= size && Value().Key(pos) in Value().quanta
      requires p in mem && mem[p] == Quantum(Value().quanta[Value().Key(pos)])
      ensures r == if fault && Value().Read(pos, count) != [] then ReadFault else Returned(Value().Read(pos, count))
    {
      Positive(page, qset);
      var q_pos := pos % (page * qset) % page;
      var n := count;
      if pos + n > size {
        n := size - pos;
      }
      if n > page - q_pos {
        n := page - q_pos;
      }
      if fault && n > 0 {
        return ReadFault;
      }
      r := Returned(mem[p].bytes[q_pos..q_pos + n]);
    }

    // The walk and the two tests of scullp_read: the page for pos, or NULL in a hole.
    method Locate(pos: nat) returns (p: Ptr)
      requires Valid()
      modifies this`mem, this`l
      ensures Valid() && Value() == old(Value()) && Holding(old(Pages()))
      ensures p == NULL <==> Value().Key(pos) !in Value().quanta
      ensures p != NULL ==> Value().Key(pos) in Pages() && p == Pages()[Value().Key(pos)]
      ensures p != NULL ==> p in mem && mem[p] == Quantum(Value().quanta[Value().Key(pos)])
      ensures mem == old(mem) && l == old(l) <==> Value().Key(pos).0 < old(|l.items|)
      ensures |l.items| == ItemsFor(Value(), old(|l.items|), pos)
    {
      Decompose(Value(), pos);
      Positive(page, qset);
      var itemsize := page * qset;
      var item, rest := pos / itemsize, pos % itemsize;
      var s_pos := rest / page;
      var dptr := Follow(item);
      ItemFacts(mem, l, page, qset, item);
      if mem[dptr].data == NULL || mem[mem[dptr].data].slots[s_pos] == NULL {
        return NULL;
      }
      QuantumFacts(mem, l, page, qset, item, s_pos);
      p := mem[mem[dptr].data].slots[s_pos];
    }

    lemma ItemUpToSize(item: nat, pos: nat)
      requires 0 < page && 0 < qset && pos <= size <= |l.items| * (page * qset)
      requires item == pos / (page * qset)
      ensures item < |l.items| <==> !(pos == size == |l.items| * (page * qset))
      ensures item <= |l.items|
    {
      var itemsize, n := page * qset, |l.items|;
      Positive(page, qset);
      DivMod(pos, itemsize);
      if n < item { MultipleStep(n, item, itemsize); }
      if item < n { MultipleStep(item, n, itemsize); }
    }

    // Find the page, then copy.
    method ReadAt(pos: nat, count: nat, fault: bool) returns (r: ReadResult)
      requires Valid()
      modifies this`mem, this`l
      ensures Valid() && Value() == old(Value()) && Holding(old(Pages()))
      ensures r == if fault && Value().Read(pos, count) != [] then ReadFault else Returned(Value().Read(pos, count))
      ensures mem == old(mem) && l == old(l) <==> !(pos == size == old(|l.items|) * (page * qset))
      ensures |l.items| == old(|l.items|) + if pos == size == old(|l.items|) * (page * qset) then 1 else 0
    {
      if pos > size {
        return Returned([]);
      }
      Positive(page, qset);
      ItemUpToSize(pos / (page * qset), pos);
      var p := Locate(pos);
      if p == NULL {
        return Returned([]);
      }
      r := CopyOut(p, pos, count, fault);
    }

    // scullp_read lets a position equal to the size through, and so can extend the list:
    // exactly when the size ends on the last item of the list.
    method Read(pos: nat, count: nat, fault: bool) returns (r: ReadResult)
      requires Valid()
      modifies this`mem, this`l
      ensures Valid() && Value() == old(Value()) && Holding(old(Pages()))
      ensures r == if fault && Value().Read(pos, count) != [] then ReadFault else Returned(Value().Read(pos, count))
      ensures r.Returned? ==> |r.bytes| <= count && pos % page + |r.bytes| <= page
      ensures r.Returned? && |r.bytes| < count && pos < size && Value().ByteAt(pos).Some? ==>
                pos + |r.bytes| == size || pos % page + |r.bytes| == page
      ensures mem == old(mem) && l == old(l) <==> !(pos == size == old(|l.items|) * (page * qset))
      ensures |l.items| == old(|l.items|) + if pos == size == old(|l.items|) * (page * qset) then 1 else 0
    {
      ghost var was := Value();
      r := ReadAt(pos, count, fault);
      if r.Returned? { ReadStops(was, pos, count, |r.bytes|, page); }
    }

    // --- Memory mappings ---

    // The loop of scullp_vma_nopage: step over one item at a time, a table's worth of pages each.
    method Walk(pages: nat) returns (ptr: Ptr, offset: nat)
      requires Valid()
      ensures pages < |l.items| * qset ==>
                pages / qset < |l.items| && ptr == l.items[pages / qset] && offset == pages % qset
      ensures pages >= |l.items| * qset ==> ptr == NULL
    {
      ptr, offset := DEV, pages;
      ghost var j := 0;
      while ptr != NULL && offset >= qset
        invariant 0 <= j <= |l.items| && ptr == l.ItemPtr(j) && (ptr == NULL <==> j == |l.items|)
        invariant pages == j * qset + offset
        decreases |l.items| - j
      {
        ItemFacts(mem, l, page, qset, j);
        ptr := mem[ptr].next;
        offset := offset - qset;
        j := j + 1;
      }
      if ptr != NULL {
        DigitsUnique(qset, j, offset);
        MultipleStep(j, |l.items|, qset);
      }
    }

    // The walk does not run off the list below the size.
    lemma BeyondList(pages: nat, byteOffset: nat)
      requires Valid() && byteOffset < size && pages == byteOffset / page
      ensures pages < |l.items| * qset
    {
      var n := |l.items| * qset;
      assert |l.items| * (page * qset) == n * page;
      DivMod(byteOffset, page);
      if n < pages { MultipleStep(n, pages, page); }
    }

    // scullp_vma_nopage: the page behind a mapped offset, found by stepping over whole
    // items. It is the page scullp_read finds by division, and SIGBUS where read finds none.
    method NoPage(byteOffset: nat) returns (found: Ptr)
      requires Valid()
      ensures byteOffset >= size ==> found == SIGBUS
      ensures byteOffset < size ==> (found == SIGBUS <==> Value().ByteAt(byteOffset).None?)
      ensures found != SIGBUS ==> Value().Key(byteOffset) in Pages() && found == Pages()[Value().Key(byteOffset)]
      ensures found != SIGBUS ==> found in mem && mem[found] == Quantum(Value().quanta[Value().Key(byteOffset)])
    {
      if byteOffset >= size {
        return SIGBUS;
      }
      DigitsByQuanta(Value(), byteOffset);
      BeyondList(byteOffset / page, byteOffset);
      var ptr, offset := Walk(byteOffset / page);
      ghost var j := byteOffset / page / qset;
      ItemFacts(mem, l, page, qset, j);
      found := if ptr != NULL && mem[ptr].data != NULL then mem[mem[ptr].data].slots[offset] else NULL;
      if found != NULL {
        QuantumFacts(mem, l, page, qset, j, offset);
      }
    }

    // scullp_mmap and scullp_vma_open: one more mapping.
    method VmaOpen(mapping: int)
      requires Valid() && mapping !in live
      modifies this`vmas, this`live
      ensures Valid() && live == old(live) + {mapping} && vmas == old(vmas) + 1
    {
      vmas := vmas + 1;
      live := live + {mapping};
    }

    // scullp_vma_close
    method VmaClose(mapping: int)
      requires Valid() && mapping in live
      modifies this`vmas, this`live
      ensures Valid() && live == old(live) - {mapping} && vmas == old(vmas) - 1
    {
      vmas := vmas - 1;
      live := live - {mapping};
    }

    // Progress of scullp_trim: as in scull_trim, but for the device structure, which stays.
    ghost predicate Freed(all: Memory, j: nat, i: nat)
      requires QuantumList.Valid(all, l, page, qset)
      reads this
    {
      && DEV in mem && DEV in all
      && SameBut(mem, Rest(all, l, j, i), {DEV})
      && (j == 0 ==> mem[DEV] == all[DEV])
    }

    method FreeSlot(ghost all: Memory, ghost j: nat, dptr: Ptr, i: nat)
      requires QuantumList.Valid(all, l, page, qset) && j < |l.items| && dptr == l.items[j] && i < qset
      requires l.ItemPtr(0) == DEV && l.tables[j] != NULL && Freed(all, j, i)
      modifies this`mem
      ensures Freed(all, j, i + 1)
    {
      ItemFacts(all, l, page, qset, j);
      CellsOfItem(all, l, page, qset, j);
      CellsOfItem(all, l, page, qset, 0);
      CellsLeft(all, l, page, qset, j, i);
      assert mem[dptr] == all[dptr];
      var p := mem[mem[dptr].data].slots[i];
      RestWithoutSlot(all, l, page, qset, j, i);
      if p != NULL {
        SlotCell(all, l, page, qset, j, i);
        Kfree(p);
      }
    }

    method FreeTable(ghost all: Memory, ghost j: nat, dptr: Ptr)
      requires QuantumList.Valid(all, l, page, qset) && j < |l.items| && dptr == l.items[j]
      requires l.ItemPtr(0) == DEV && l.tables[j] != NULL && Freed(all, j, 0)
      modifies this`mem
      ensures DEV in mem && dptr in mem && mem[dptr] == Item(NULL, l.ItemPtr(j + 1))
      ensures SameBut(mem, Rest(all, l, j + 1, 0), {DEV, dptr})
    {
      ItemFacts(all, l, page, qset, j);
      CellsOfItem(all, l, page, qset, j);
      CellsOfItem(all, l, page, qset, 0);
      var i := 0;
      while i < qset
        invariant 0 <= i <= qset && Freed(all, j, i)
      {
        FreeSlot(all, j, dptr, i);
        i := i + 1;
      }
      CellsLeft(all, l, page, qset, j, qset);
      assert mem[dptr] == all[dptr];
      RestWithoutItem(all, l, page, qset, j);
      Kfree(mem[dptr].data);
      mem := mem[dptr := mem[dptr].(data := NULL)];
    }

    // The body of scullp_trim's loop.
    method FreeItem(ghost all: Memory, ghost j: nat, dptr: Ptr) returns (next: Ptr)
      requires QuantumList.Valid(all, l, page, qset) && j < |l.items| && dptr == l.items[j]
      requires l.ItemPtr(0) == DEV && Freed(all, j, 0)
      modifies this`mem
      ensures Freed(all, j + 1, 0)
      ensures next == l.ItemPtr(j + 1) && (next == NULL <==> j + 1 == |l.items|)
    {
      ItemFacts(all, l, page, qset, j);
      CellsOfItem(all, l, page, qset, j);
      CellsOfItem(all, l, page, qset, 0);
      CellsLeft(all, l, page, qset, j, 0);
      RestWithoutItem(all, l, page, qset, j);
      if mem[dptr].data != NULL {
        FreeTable(all, j, dptr);
      }
      next := mem[dptr].next;
      if dptr != DEV {
        Kfree(dptr);
      }
    }

    // scullp_trim, refused while mappings exist.
    method Trim(newQset: nat) returns (busy: bool)
      requires Valid() && 0 < newQset
      modifies this
      ensures Valid() && live == old(live)
      ensures busy <==> live != {}
      ensures busy ==> mem == old(mem) && l == old(l) && size == old(size) && qset == old(qset)
      ensures !busy ==> mem == map[DEV := Item(NULL, NULL)] && size == 0 && qset == newQset
    {
      if vmas != 0 {
        return true;
      }
      ghost var all := mem;
      ghost var j := 0;
      var dptr := DEV;
      RestAtTheEnds(all, l, page, qset);
      ItemFacts(all, l, page, qset, 0);
      while dptr != NULL
        invariant QuantumList.Valid(all, l, page, qset) && j <= |l.items|
        invariant l == old(l) && qset == old(qset) && live == old(live) == {} && vmas == 0
        invariant dptr == l.ItemPtr(j) && (dptr == NULL <==> j == |l.items|)
        invariant Freed(all, j, 0)
        decreases |l.items| - j
      {
        dptr := FreeItem(all, j, dptr);
        j := j + 1;
      }
      assert j == |l.items|;
      forall p | p in mem ensures p == DEV {
        assert p in mem <==> p in Rest(all, l, j, 0) || p == DEV;
      }
      mem := mem[DEV := Item(NULL, NULL)];
      assert mem.Keys == {DEV};
      assert mem == map[DEV := Item(NULL, NULL)];
      assert LinkItem(map[], EMPTY, DEV) == map[DEV := Item(NULL, NULL)];
      ItemAdded(map[], EMPTY, page, newQset, DEV);
      size, qset := 0, newQset;
      l := EMPTY.WithItem(DEV);
      busy := false;
    }
  }

  lemma LastPosition(s: Store, x: byte)
    requires s.Valid() && s.size == 0
    ensures var last := s.ItemSize() - 1;
            && 0 <= last && s.Key(last).0 == 0
            && forall base :: |base| == s.quantum ==> s.Write(last, base, [x]).size == s.ItemSize()
  {
    Positive(s.quantum, s.qset);
    DigitsUnique(s.ItemSize(), 0, s.ItemSize() - 1);
  }

  // A device whose size ends on its last item.
  method FilledToTheBrim(page: nat, qset: nat, x: byte) returns (d: Device)
    requires 0 < page && 0 < qset
    ensures fresh(d) && d.Valid() && |d.l.items| == 1 && d.page == page && d.qset == qset
    ensures d.size == |d.l.items| * (page * qset)
  {
    d := new Device(page, qset);
    ghost var was := d.Value();
    LastPosition(was, x);
    var pos := page * qset - 1;
    assert pos == was.ItemSize() - 1 && was.Key(pos).0 == 0;
    var r, _ := d.Write(pos, [x], None, 2);
    assert |d.l.items| == 1;
    assert d.Value().size == was.ItemSize();
  }

  // Reading it at its end returns nothing and lengthens the list.
  method ReadLengthensList(page: nat, qset: nat, x: byte) returns (d: Device, r: ReadResult)
    requires 0 < page && 0 < qset
    ensures d.Valid() && r == Returned([]) && d.size == page * qset && |d.l.items| == 2
  {
    d := FilledToTheBrim(page, qset, x);
    assert d.size == 1 * (page * qset);
    r := d.Read(d.size, 1, false);
  }

  // --- Whole runs ---

  datatype Op =
    | OpRead(pos: nat, count: nat)
    | OpWrite(pos: nat, buf: seq<byte>, fault: Option<nat>, granted: nat)
    | OpOpenWriteOnly(qset: nat)
    | OpMap(mapping: int)
    | OpUnmap(mapping: int)
    | OpFault(offset: nat)

  // The kernel opens a mapping once and closes it once.
  predicate Legal(live: set<int>, ops: seq<Op>)
    decreases |ops|
  {
    ops == [] ||
    match ops[0]
    case OpMap(m) => m !in live && Legal(live + {m}, ops[1..])
    case OpUnmap(m) => m in live && Legal(live - {m}, ops[1..])
    case OpOpenWriteOnly(qset) => qset > 0 && Legal(live, ops[1..])
    case _ => Legal(live, ops[1..])
  }

  // One operation, as the kernel would call it.
  method Perform(d: Device, op: Op)
    requires d.Valid() && Legal(d.live, [op])
    modifies d
    ensures d.Valid()
    ensures d.live == match op
                      case OpMap(m) => old(d.live) + {m}
                      case OpUnmap(m) => old(d.live) - {m}
                      case _ => old(d.live)
    ensures old(d.live) != {} ==> d.Holding(old(d.Pages()))
  {
    match op
    case OpRead(pos, count) => var _ := d.Read(pos, count, false);
    case OpWrite(pos, buf, fault, granted) => var _, _ := d.Write(pos, buf, fault, granted);
    case OpOpenWriteOnly(qset) => var _ := d.Trim(qset);
    case OpMap(m) => d.VmaOpen(m);
    case OpUnmap(m) => d.VmaClose(m);
    case OpFault(offset) => var _ := d.NoPage(offset);
  }

  // While a mapping m lives, no run of operations frees or replaces a page of the device,
  // whether m has touched it or not.
  method RunWhileMapped(d: Device, ops: seq<Op>, m: int)
    requires d.Valid() && m in d.live && Legal(d.live, ops)
    requires forall i :: 0 <= i < |ops| ==> ops[i] != OpUnmap(m)
    modifies d
    ensures d.Valid() && m in d.live
    ensures d.Holding(old(d.Pages()))
  {
    var done := 0;
    while done < |ops|
      invariant 0 <= done <= |ops| && d.Valid() && m in d.live && Legal(d.live, ops[done..])
      invariant d.Holding(old(d.Pages()))
    {
      assert ops[done..][0] == ops[done] && ops[done..][1..] == ops[done + 1..];
      Perform(d, ops[done]);
      done := done + 1;
    }
  }
}
