// The memory behind the scull devices: a list of items, each with a table of pointers
// to quanta (ldd/scull/scull.h, ldd/scullp/scullp.h). The kernel heap is an explicit map
// from addresses to allocated cells, so that using freed memory, freeing twice and
// leaking are all things a proof can rule out.
module QuantumList {
  import opened Common

  type Ptr = int
  const NULL: Ptr := 0

  datatype Cell =
    | Item(data: Ptr, next: Ptr)       // struct scull_qset
    | Table(slots: seq<Ptr>)           // the array behind `data`
    | Quantum(bytes: seq<byte>)

  type Memory = map<Ptr, Cell>

  // What an allocated cell is for. Every cell has exactly one place.
  datatype Place = ItemAt(i: nat) | TableAt(i: nat) | QuantumAt(i: nat, s: nat)

  // The pointers of the list in list order: the items, the table of each (NULL if none),
  // the slots of each table ([] if none), and the way back from an address to its place.
  datatype Layout = Layout(items: seq<Ptr>, tables: seq<Ptr>, slots: seq<seq<Ptr>>, place: map<Ptr, Place>) {

    function ItemPtr(i: nat): Ptr {
      if i < |items| then items[i] else NULL
    }

    predicate Holds(i: nat, s: nat) {
      i < |slots| && s < |slots[i]| && slots[i][s] != NULL
    }

    function WithItem(p: Ptr): Layout {
      Layout(items + [p], tables + [NULL], slots + [[]], place[p := ItemAt(|items|)])
    }

    function WithTable(i: nat, p: Ptr, qset: nat): Layout
      requires i < |tables| && i < |slots|
    {
      this.(tables := tables[i := p], slots := slots[i := seq(qset, _ => NULL)], place := place[p := TableAt(i)])
    }

    function WithQuantum(i: nat, s: nat, p: Ptr): Layout
      requires i < |slots| && s < |slots[i]|
    {
      this.(slots := slots[i := slots[i][s := p]], place := place[p := QuantumAt(i, s)])
    }
  }

  const EMPTY := Layout([], [], [], map[])

  predicate ItemOk(mem: Memory, l: Layout, i: nat)
    requires i < |l.items| == |l.tables|
  {
    var p := l.items[i];
    && p in mem && mem[p] == Item(l.tables[i], l.ItemPtr(i + 1))
    && p in l.place && l.place[p] == ItemAt(i)
  }

  predicate ItemsOk(mem: Memory, l: Layout) {
    && |l.items| == |l.tables| == |l.slots|
    && forall i :: 0 <= i < |l.items| ==> ItemOk(mem, l, i)
  }

  predicate TableOk(mem: Memory, l: Layout, qset: nat, i: nat)
    requires i < |l.tables| == |l.slots|
  {
    var p := l.tables[i];
    if p == NULL then l.slots[i] == [] else
    && |l.slots[i]| == qset
    && p in mem && mem[p] == Table(l.slots[i])
    && p in l.place && l.place[p] == TableAt(i)
  }

  predicate TablesOk(mem: Memory, l: Layout, qset: nat) {
    && |l.tables| == |l.slots|
    && forall i :: 0 <= i < |l.tables| ==> TableOk(mem, l, qset, i)
  }

  predicate QuantumOk(mem: Memory, l: Layout, quantum: nat, i: nat, s: nat)
    requires i < |l.slots| && s < |l.slots[i]|
  {
    var p := l.slots[i][s];
    p != NULL ==>
      && p in mem && mem[p].Quantum? && |mem[p].bytes| == quantum
      && p in l.place && l.place[p] == QuantumAt(i, s)
  }

  predicate QuantaOk(mem: Memory, l: Layout, quantum: nat) {
    forall i, s :: 0 <= i < |l.slots| && 0 <= s < |l.slots[i]| ==> QuantumOk(mem, l, quantum, i, s)
  }

  // Whatever is allocated is reachable from the device, in one way only.
  predicate Reachable(l: Layout, p: Ptr)
    requires p in l.place
  {
    match l.place[p]
    case ItemAt(i) => i < |l.items| && l.items[i] == p
    case TableAt(i) => i < |l.tables| && l.tables[i] == p
    case QuantumAt(i, s) => i < |l.slots| && s < |l.slots[i]| && l.slots[i][s] == p
  }

  predicate NothingLeaked(mem: Memory, l: Layout) {
    && l.place.Keys == mem.Keys
    && forall p :: p in l.place ==> Reachable(l, p)
  }

  predicate Valid(mem: Memory, l: Layout, quantum: nat, qset: nat) {
    && NULL !in mem
    && ItemsOk(mem, l) && TablesOk(mem, l, qset) && QuantaOk(mem, l, quantum) && NothingLeaked(mem, l)
  }

  function BytesAt(mem: Memory, p: Ptr): seq<byte> {
    if p in mem && mem[p].Quantum? then mem[p].bytes else []
  }

  // The contents of the device: the quanta it has, by item and slot.
  ghost function Contents(mem: Memory, l: Layout): imap<(nat, nat), seq<byte>> {
    imap k: (nat, nat) | l.Holds(k.0, k.1) :: BytesAt(mem, l.slots[k.0][k.1])
  }

  // --- The ways the drivers extend it ---

  // A zeroed item hung behind the last one.
  function LinkItem(mem: Memory, l: Layout, p: Ptr): Memory
    requires |l.items| == |l.tables|
  {
    var linked := if l.items == [] then mem else
                  var n := |l.items| - 1; mem[l.items[n] := Item(l.tables[n], p)];
    linked[p := Item(NULL, NULL)]
  }

  // A table of empty slots, for an item that has none.
  function AddTable(mem: Memory, l: Layout, i: nat, p: Ptr, qset: nat): Memory
    requires i < |l.items|
  {
    mem[p := Table(seq(qset, _ => NULL))][l.items[i] := Item(p, l.ItemPtr(i + 1))]
  }

  // A quantum for an empty slot.
  function AddQuantum(mem: Memory, l: Layout, i: nat, s: nat, p: Ptr, bytes: seq<byte>): Memory
    requires i < |l.tables| && i < |l.slots| && s < |l.slots[i]|
  {
    mem[p := Quantum(bytes)][l.tables[i] := Table(l.slots[i][s := p])]
  }

  // Slot (i, s) of one layout against that of another.
  ghost predicate SameSlot(mem: Memory, l: Layout, m: Memory, t: Layout, i: nat, s: nat) {
    && (t.Holds(i, s) <==> l.Holds(i, s))
    && (l.Holds(i, s) ==> BytesAt(m, t.slots[i][s]) == BytesAt(mem, l.slots[i][s]))
  }

  lemma ContentsKept(mem: Memory, l: Layout, m: Memory, t: Layout)
    requires forall i: nat, s: nat :: SameSlot(mem, l, m, t, i, s)
    ensures Contents(m, t) == Contents(mem, l)
  {
    forall k: (nat, nat) ensures k in Contents(m, t) <==> k in Contents(mem, l) {
      assert SameSlot(mem, l, m, t, k.0, k.1);
    }
    forall k: (nat, nat) | k in Contents(m, t) ensures Contents(m, t)[k] == Contents(mem, l)[k] {
      assert SameSlot(mem, l, m, t, k.0, k.1);
    }
  }

  // All slots as they were, but for slot (i, s), which now holds `bytes`.
  lemma ContentsUpdated(mem: Memory, l: Layout, m: Memory, t: Layout, i: nat, s: nat, bytes: seq<byte>)
    requires t.Holds(i, s) && BytesAt(m, t.slots[i][s]) == bytes
    requires forall j: nat, u: nat :: j != i || u != s ==> SameSlot(mem, l, m, t, j, u)
    ensures Contents(m, t) == Contents(mem, l)[(i, s) := bytes]
  {
    var c := Contents(mem, l)[(i, s) := bytes];
    forall k: (nat, nat) ensures k in Contents(m, t) <==> k in c {
      if k != (i, s) { assert SameSlot(mem, l, m, t, k.0, k.1); }
    }
    forall k: (nat, nat) | k in c ensures Contents(m, t)[k] == c[k] {
      if k != (i, s) { assert SameSlot(mem, l, m, t, k.0, k.1); }
    }
  }

  lemma ItemAddedIsValid(mem: Memory, l: Layout, quantum: nat, qset: nat, p: Ptr)
    requires Valid(mem, l, quantum, qset) && p != NULL && p !in mem
    ensures Valid(LinkItem(mem, l, p), l.WithItem(p), quantum, qset)
  {
    var m, t := LinkItem(mem, l, p), l.WithItem(p);
    var n := |l.items|;
    if n > 0 { assert ItemOk(mem, l, n - 1); }
    forall i, s | 0 <= i < |t.slots| && 0 <= s < |t.slots[i]| ensures QuantumOk(m, t, quantum, i, s) {
      assert QuantumOk(mem, l, quantum, i, s);
    }
    forall j | 0 <= j < n ensures ItemOk(m, t, j) && TableOk(m, t, qset, j) {
      assert ItemOk(mem, l, j) && TableOk(mem, l, qset, j);
    }
    assert ItemsOk(m, t) && TablesOk(m, t, qset);
    forall q | q in t.place ensures Reachable(t, q) {
      if q != p { assert Reachable(l, q); }
    }
  }

  lemma ItemAdded(mem: Memory, l: Layout, quantum: nat, qset: nat, p: Ptr)
    requires Valid(mem, l, quantum, qset) && p != NULL && p !in mem
    ensures Valid(LinkItem(mem, l, p), l.WithItem(p), quantum, qset)
    ensures Contents(LinkItem(mem, l, p), l.WithItem(p)) == Contents(mem, l)
  {
    ItemAddedIsValid(mem, l, quantum, qset, p);
    if l.items != [] { assert ItemOk(mem, l, |l.items| - 1); }
    var m, t := LinkItem(mem, l, p), l.WithItem(p);
    forall i: nat, s: nat ensures SameSlot(mem, l, m, t, i, s) {
      if l.Holds(i, s) { assert QuantumOk(mem, l, quantum, i, s); }
    }
    ContentsKept(mem, l, m, t);
  }

  lemma TableAddedItems(mem: Memory, l: Layout, quantum: nat, qset: nat, i: nat, p: Ptr)
    requires Valid(mem, l, quantum, qset) && p != NULL && p !in mem && i < |l.items| && l.tables[i] == NULL
    ensures var m, t := AddTable(mem, l, i, p, qset), l.WithTable(i, p, qset);
            ItemsOk(m, t) && TablesOk(m, t, qset)
  {
    var m, t := AddTable(mem, l, i, p, qset), l.WithTable(i, p, qset);
    assert ItemOk(mem, l, i) && TableOk(mem, l, qset, i);
    forall j | 0 <= j < |t.items| ensures ItemOk(m, t, j) && TableOk(m, t, qset, j) {
      assert ItemOk(mem, l, j) && TableOk(mem, l, qset, j);
    }
  }

  lemma TableAddedQuanta(mem: Memory, l: Layout, quantum: nat, qset: nat, i: nat, p: Ptr)
    requires Valid(mem, l, quantum, qset) && p != NULL && p !in mem && i < |l.items| && l.tables[i] == NULL
    ensures QuantaOk(AddTable(mem, l, i, p, qset), l.WithTable(i, p, qset), quantum)
  {
    var m, t := AddTable(mem, l, i, p, qset), l.WithTable(i, p, qset);
    assert ItemOk(mem, l, i) && TableOk(mem, l, qset, i);
    forall j, s | 0 <= j < |t.slots| && 0 <= s < |t.slots[j]| ensures QuantumOk(m, t, quantum, j, s) {
      if j != i { assert QuantumOk(mem, l, quantum, j, s); }
    }
  }

  lemma TableAddedIsValid(mem: Memory, l: Layout, quantum: nat, qset: nat, i: nat, p: Ptr)
    requires Valid(mem, l, quantum, qset) && p != NULL && p !in mem && i < |l.items| && l.tables[i] == NULL
    ensures Valid(AddTable(mem, l, i, p, qset), l.WithTable(i, p, qset), quantum, qset)
  {
    TableAddedItems(mem, l, quantum, qset, i, p);
    TableAddedQuanta(mem, l, quantum, qset, i, p);
    assert ItemOk(mem, l, i) && TableOk(mem, l, qset, i);
    var t := l.WithTable(i, p, qset);
    forall q | q in t.place ensures Reachable(t, q) {
      if q != p { assert Reachable(l, q); }
    }
  }

  lemma TableAdded(mem: Memory, l: Layout, quantum: nat, qset: nat, i: nat, p: Ptr)
    requires Valid(mem, l, quantum, qset) && p != NULL && p !in mem && i < |l.items| && l.tables[i] == NULL
    ensures Valid(AddTable(mem, l, i, p, qset), l.WithTable(i, p, qset), quantum, qset)
    ensures Contents(AddTable(mem, l, i, p, qset), l.WithTable(i, p, qset)) == Contents(mem, l)
  {
    TableAddedIsValid(mem, l, quantum, qset, i, p);
    var m, t := AddTable(mem, l, i, p, qset), l.WithTable(i, p, qset);
    assert ItemOk(mem, l, i) && TableOk(mem, l, qset, i);
    forall j: nat, s: nat ensures SameSlot(mem, l, m, t, j, s) {
      if l.Holds(j, s) { assert QuantumOk(mem, l, quantum, j, s); }
    }
    ContentsKept(mem, l, m, t);
  }

  lemma QuantumAddedItems(mem: Memory, l: Layout, quantum: nat, qset: nat, i: nat, s: nat, p: Ptr, bytes: seq<byte>)
    requires Valid(mem, l, quantum, qset) && p != NULL && p !in mem
    requires i < |l.slots| && s < |l.slots[i]| && l.slots[i][s] == NULL && |bytes| == quantum
    ensures var m, t := AddQuantum(mem, l, i, s, p, bytes), l.WithQuantum(i, s, p);
            ItemsOk(m, t) && TablesOk(m, t, qset)
  {
    var m, t := AddQuantum(mem, l, i, s, p, bytes), l.WithQuantum(i, s, p);
    assert TableOk(mem, l, qset, i);
    forall j | 0 <= j < |t.items| ensures ItemOk(m, t, j) && TableOk(m, t, qset, j) {
      assert ItemOk(mem, l, j) && TableOk(mem, l, qset, j);
    }
  }

  lemma QuantumAddedQuanta(mem: Memory, l: Layout, quantum: nat, qset: nat, i: nat, s: nat, p: Ptr, bytes: seq<byte>)
    requires Valid(mem, l, quantum, qset) && p != NULL && p !in mem
    requires i < |l.slots| && s < |l.slots[i]| && l.slots[i][s] == NULL && |bytes| == quantum
    ensures QuantaOk(AddQuantum(mem, l, i, s, p, bytes), l.WithQuantum(i, s, p), quantum)
  {
    var m, t := AddQuantum(mem, l, i, s, p, bytes), l.WithQuantum(i, s, p);
    assert TableOk(mem, l, qset, i);
    forall j, u | 0 <= j < |t.slots| && 0 <= u < |t.slots[j]| ensures QuantumOk(m, t, quantum, j, u) {
      if j != i || u != s { assert QuantumOk(mem, l, quantum, j, u); }
    }
  }

  lemma QuantumAddedIsValid(mem: Memory, l: Layout, quantum: nat, qset: nat, i: nat, s: nat, p: Ptr, bytes: seq<byte>)
    requires Valid(mem, l, quantum, qset) && p != NULL && p !in mem
    requires i < |l.slots| && s < |l.slots[i]| && l.slots[i][s] == NULL && |bytes| == quantum
    ensures Valid(AddQuantum(mem, l, i, s, p, bytes), l.WithQuantum(i, s, p), quantum, qset)
  {
    QuantumAddedItems(mem, l, quantum, qset, i, s, p, bytes);
    QuantumAddedQuanta(mem, l, quantum, qset, i, s, p, bytes);
    var t := l.WithQuantum(i, s, p);
    assert TableOk(mem, l, qset, i);
    forall q | q in t.place ensures Reachable(t, q) {
      if q != p { assert Reachable(l, q); }
    }
  }

  lemma QuantumAddedContents(mem: Memory, l: Layout, quantum: nat, qset: nat, i: nat, s: nat, p: Ptr, bytes: seq<byte>)
    requires Valid(mem, l, quantum, qset) && p != NULL && p !in mem
    requires i < |l.slots| && s < |l.slots[i]| && l.slots[i][s] == NULL && |bytes| == quantum
    ensures Contents(AddQuantum(mem, l, i, s, p, bytes), l.WithQuantum(i, s, p)) == Contents(mem, l)[(i, s) := bytes]
  {
    var m, t := AddQuantum(mem, l, i, s, p, bytes), l.WithQuantum(i, s, p);
    assert TableOk(mem, l, qset, i);
    assert BytesAt(m, p) == bytes;
    forall j: nat, u: nat | j != i || u != s ensures SameSlot(mem, l, m, t, j, u) {
      if l.Holds(j, u) { assert QuantumOk(mem, l, quantum, j, u); }
    }
    ContentsUpdated(mem, l, m, t, i, s, bytes);
  }

  lemma QuantumAdded(mem: Memory, l: Layout, quantum: nat, qset: nat, i: nat, s: nat, p: Ptr, bytes: seq<byte>)
    requires Valid(mem, l, quantum, qset) && p != NULL && p !in mem
    requires i < |l.slots| && s < |l.slots[i]| && l.slots[i][s] == NULL && |bytes| == quantum
    ensures Valid(AddQuantum(mem, l, i, s, p, bytes), l.WithQuantum(i, s, p), quantum, qset)
    ensures Contents(AddQuantum(mem, l, i, s, p, bytes), l.WithQuantum(i, s, p)) == Contents(mem, l)[(i, s) := bytes]
  {
    QuantumAddedIsValid(mem, l, quantum, qset, i, s, p, bytes);
    QuantumAddedContents(mem, l, quantum, qset, i, s, p, bytes);
  }

  lemma BytesChanged(mem: Memory, l: Layout, quantum: nat, qset: nat, i: nat, s: nat, bytes: seq<byte>)
    requires Valid(mem, l, quantum, qset) && l.Holds(i, s) && |bytes| == quantum
    ensures Valid(mem[l.slots[i][s] := Quantum(bytes)], l, quantum, qset)
    ensures Contents(mem[l.slots[i][s] := Quantum(bytes)], l) == Contents(mem, l)[(i, s) := bytes]
  {
    var m := mem[l.slots[i][s] := Quantum(bytes)];
    assert QuantumOk(mem, l, quantum, i, s);
    forall j | 0 <= j < |l.items| ensures ItemOk(m, l, j) && TableOk(m, l, qset, j) {
      assert ItemOk(mem, l, j) && TableOk(mem, l, qset, j);
    }
    forall j, u | 0 <= j < |l.slots| && 0 <= u < |l.slots[j]| ensures QuantumOk(m, l, quantum, j, u) {
      assert QuantumOk(mem, l, quantum, j, u);
    }
    forall j: nat, u: nat | j != i || u != s ensures SameSlot(mem, l, m, l, j, u) {
      if l.Holds(j, u) { assert QuantumOk(mem, l, quantum, j, u); }
    }
    ContentsUpdated(mem, l, m, l, i, s, bytes);
  }

  // What validity says about one item, one table entry, one quantum.
  lemma ItemFacts(mem: Memory, l: Layout, quantum: nat, qset: nat, i: nat)
    requires Valid(mem, l, quantum, qset) && i < |l.items|
    ensures ItemsOk(mem, l) && l.items[i] != NULL && l.items[i] in mem
    ensures mem[l.items[i]] == Item(l.tables[i], l.ItemPtr(i + 1))
    ensures i + 1 < |l.items| ==> l.items[i + 1] != NULL
    ensures l.tables[i] == NULL ==> l.slots[i] == []
    ensures l.tables[i] != NULL ==> |l.slots[i]| == qset && l.tables[i] in mem && mem[l.tables[i]] == Table(l.slots[i])
  {
    assert ItemOk(mem, l, i) && TableOk(mem, l, qset, i);
    if i + 1 < |l.items| { assert ItemOk(mem, l, i + 1); }
  }

  lemma QuantumFacts(mem: Memory, l: Layout, quantum: nat, qset: nat, i: nat, s: nat)
    requires Valid(mem, l, quantum, qset) && l.Holds(i, s)
    ensures l.slots[i][s] in mem && mem[l.slots[i][s]] == Quantum(Contents(mem, l)[(i, s)])
    ensures s < qset && |Contents(mem, l)[(i, s)]| == quantum
  {
    assert QuantumOk(mem, l, quantum, i, s);
    assert TableOk(mem, l, qset, i);
  }

  lemma ContentsAreQuanta(mem: Memory, l: Layout, quantum: nat, qset: nat)
    requires Valid(mem, l, quantum, qset)
    ensures forall k :: k in Contents(mem, l) ==> k.1 < qset && |Contents(mem, l)[k]| == quantum
  {
    forall k | k in Contents(mem, l) ensures k.1 < qset && |Contents(mem, l)[k]| == quantum {
      QuantumFacts(mem, l, quantum, qset, k.0, k.1);
    }
  }

  // --- Nothing is out of reach ---

  // Following `next` n times from `head`, on the memory alone.
  function NthItem(mem: Memory, head: Ptr, n: nat): Ptr
    decreases n
  {
    if n == 0 || head !in mem || !mem[head].Item? then head else NthItem(mem, mem[head].next, n - 1)
  }

  lemma {:induction false} WalkFindsItem(mem: Memory, l: Layout, quantum: nat, qset: nat, from: nat, n: nat)
    requires Valid(mem, l, quantum, qset) && from + n < |l.items|
    ensures NthItem(mem, l.ItemPtr(from), n) == l.items[from + n]
    decreases n
  {
    ItemFacts(mem, l, quantum, qset, from);
    if n > 0 {
      WalkFindsItem(mem, l, quantum, qset, from + 1, n - 1);
    }
  }

  // Every allocated cell is an item of the list, the table of one, or a quantum in the
  // table of one: the device can always free it.
  lemma EveryCellIsInReach(mem: Memory, l: Layout, quantum: nat, qset: nat, p: Ptr)
    requires Valid(mem, l, quantum, qset) && p in mem
    ensures exists n :: n >= 0 &&
              var item := NthItem(mem, l.ItemPtr(0), n);
              && item in mem && mem[item].Item?
              && (p == item
                  || p == mem[item].data
                  || (mem[item].data in mem && mem[mem[item].data].Table? && p in mem[mem[item].data].slots))
  {
    assert Reachable(l, p);
    var n := l.place[p].i;
    ItemFacts(mem, l, quantum, qset, n);
    WalkFindsItem(mem, l, quantum, qset, 0, n);
    if l.place[p].QuantumAt? {
      assert l.slots[n][l.place[p].s] == p;
    }
    assert NthItem(mem, l.ItemPtr(0), n) == l.items[n];
  }

  // --- Freeing ---

  // The cells still allocated when the first `item` items and the first `slot` quanta of
  // the next one have been freed.
  predicate Kept(place: Place, item: nat, slot: nat) {
    match place
    case ItemAt(i) => item <= i
    case TableAt(i) => item <= i
    case QuantumAt(i, s) => item < i || (item == i && slot <= s)
  }

  ghost function Rest(mem: Memory, l: Layout, item: nat, slot: nat): Memory
    requires l.place.Keys == mem.Keys
  {
    map p | p in mem && Kept(l.place[p], item, slot) :: mem[p]
  }

  lemma CellsOfItem(mem: Memory, l: Layout, quantum: nat, qset: nat, j: nat)
    requires Valid(mem, l, quantum, qset) && j < |l.items|
    ensures l.items[j] in l.place && l.place[l.items[j]] == ItemAt(j)
    ensures l.tables[j] != NULL ==> l.tables[j] in l.place && l.place[l.tables[j]] == TableAt(j)
  {
    assert ItemOk(mem, l, j) && TableOk(mem, l, qset, j);
  }

  lemma SlotCell(mem: Memory, l: Layout, quantum: nat, qset: nat, j: nat, i: nat)
    requires Valid(mem, l, quantum, qset) && l.Holds(j, i)
    ensures l.slots[j][i] in l.place && l.place[l.slots[j][i]] == QuantumAt(j, i)
  {
    assert QuantumOk(mem, l, quantum, j, i);
  }

  // What is left while item j is being freed: the item, its table, and the quanta from slot i on.
  lemma CellsLeft(mem: Memory, l: Layout, quantum: nat, qset: nat, j: nat, i: nat)
    requires Valid(mem, l, quantum, qset) && j < |l.items|
    ensures var r := Rest(mem, l, j, i);
            && l.items[j] in r && r[l.items[j]] == mem[l.items[j]]
            && (l.tables[j] != NULL ==> l.tables[j] in r && r[l.tables[j]] == mem[l.tables[j]])
            && (l.Holds(j, i) ==> l.slots[j][i] in r)
  {
    CellsOfItem(mem, l, quantum, qset, j);
    ItemFacts(mem, l, quantum, qset, j);
    if l.Holds(j, i) {
      SlotCell(mem, l, quantum, qset, j, i);
      QuantumFacts(mem, l, quantum, qset, j, i);
    }
  }

  // Freeing the next quantum takes away exactly the cell in that place.
  lemma RestWithoutSlot(mem: Memory, l: Layout, quantum: nat, qset: nat, j: nat, i: nat)
    requires Valid(mem, l, quantum, qset) && j < |l.slots| && i < |l.slots[j]|
    ensures l.slots[j][i] != NULL ==> l.slots[j][i] in Rest(mem, l, j, i)
    ensures Rest(mem, l, j, i) - {l.slots[j][i]} == Rest(mem, l, j, i + 1)
  {
    assert QuantumOk(mem, l, quantum, j, i);
    var a, b := Rest(mem, l, j, i) - {l.slots[j][i]}, Rest(mem, l, j, i + 1);
    forall p ensures p in a <==> p in b {
      if p in mem { assert Reachable(l, p); }
    }
    forall p | p in a ensures a[p] == b[p] { assert a[p] == mem[p]; }
  }

  // Once its quanta are gone, an item is left with its table and itself.
  lemma RestWithoutItem(mem: Memory, l: Layout, quantum: nat, qset: nat, j: nat)
    requires Valid(mem, l, quantum, qset) && j < |l.items|
    ensures l.tables[j] != NULL ==> Rest(mem, l, j, qset) - {l.tables[j]} - {l.items[j]} == Rest(mem, l, j + 1, 0)
    ensures l.tables[j] == NULL ==> Rest(mem, l, j, 0) - {l.items[j]} == Rest(mem, l, j + 1, 0)
  {
    CellsOfItem(mem, l, quantum, qset, j);
    assert TableOk(mem, l, qset, j);
    var done := if l.tables[j] == NULL then 0 else qset;
    var a, b := Rest(mem, l, j, done) - {l.tables[j]} - {l.items[j]}, Rest(mem, l, j + 1, 0);
    forall p ensures p in a <==> p in b {
      if p in mem { assert Reachable(l, p); }
    }
    forall p | p in a ensures a[p] == b[p] { assert a[p] == mem[p]; }
    if l.tables[j] == NULL {
      assert Rest(mem, l, j, 0) - {l.tables[j]} == Rest(mem, l, j, 0);
    }
  }

  lemma RestAtTheEnds(mem: Memory, l: Layout, quantum: nat, qset: nat)
    requires Valid(mem, l, quantum, qset)
    ensures Rest(mem, l, 0, 0) == mem
    ensures Rest(mem, l, |l.items|, 0) == map[]
  {
    var all := Rest(mem, l, 0, 0);
    forall p ensures p in all <==> p in mem {
      if p in mem { assert Kept(l.place[p], 0, 0); }
    }
    forall p | p in all ensures all[p] == mem[p] {}
    forall p | p in mem ensures !Kept(l.place[p], |l.items|, 0) {
      assert Reachable(l, p);
    }
  }
}
