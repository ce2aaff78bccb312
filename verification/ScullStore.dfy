/**
 The bare scull device as a byte store: the address map from file offsets to
 (node, quantum, byte), reads and writes as functions on the device state, and
 what repeated short writes followed by repeated short reads give back.
 */
module ScullStore {
  import opened Common

  type Quantum = Option<seq<byte>>

  /** `struct scull_qset`: an optional array of optional quanta; `next` is the position in the list. */
  datatype Node = Node(data: Option<seq<Quantum>>)

  const EMPTY_NODE := Node(None)

  /** `struct scull_dev`. */
  datatype Dev = Dev(nodes: seq<Node>, quantum: int, qset: int, size: nat)

  /** Every allocated array and quantum has the size the device recorded at its last reset. */
  ghost predicate Geometry(d: Dev) {
    forall i :: 0 <= i < |d.nodes| && d.nodes[i].data.Some? ==> WellCut(d.nodes[i].data.value, d.quantum, d.qset)
  }

  ghost predicate WellCut(slots: seq<Quantum>, quantum: int, qset: int) {
    |slots| == qset && forall s :: 0 <= s < qset && slots[s].Some? ==> |slots[s].value| == quantum
  }

  // ---- The address map ----

  datatype Addr = Addr(node: nat, s: nat, q: nat)

  /** An address map with its quantum and item sizes. */
  datatype AddrMap = AddrMap(addr: nat -> Addr, quantum: nat, itemSize: nat)

  function ItemSize(quantum: nat, qset: nat): (n: nat)
    requires 0 < quantum && 0 < qset
    ensures n >= quantum
  {
    MulMonotone(1, qset, quantum);
    quantum * qset
  }

  /** `while (--n > 0)` takes items 0 and 1 to the same first node. */
  function NodeOf(item: nat): nat {
    if item <= 1 then 0 else item - 1
  }

  function AddrOf(quantum: nat, qset: nat, pos: nat): (a: Addr)
    requires 0 < quantum && 0 < qset
    ensures a.s < qset && a.q < quantum
  {
    var item, rest := pos / ItemSize(quantum, qset), pos % ItemSize(quantum, qset);
    SmallQuotient(rest, quantum, qset);
    Addr(NodeOf(item), rest / quantum, rest % quantum)
  }

  lemma MulMonotone(a: nat, b: nat, k: nat)
    requires a <= b
    ensures a * k <= b * k
  {
  }

  lemma SmallQuotient(rest: nat, quantum: nat, qset: nat)
    requires 0 < quantum && rest < quantum * qset
    ensures rest / quantum < qset
  {
    var s := rest / quantum;
    assert s * quantum <= rest;
    if s >= qset {
      MulMonotone(qset, s, quantum);
    }
  }

  lemma Division(a: nat, b: nat, q: nat, r: nat)
    requires 0 < b && a == q * b + r && r < b
    ensures a / b == q && a % b == r
  {
    var q', r' := a / b, a % b;
    assert a == q' * b + r';
    if q' < q {
      MulMonotone(q' + 1, q, b);
    } else if q < q' {
      MulMonotone(q + 1, q', b);
    }
  }

  lemma ItemNumbers(size: nat, p: nat)
    requires 0 < size
    ensures (p + size) / size == p / size + 1 && (p + size) % size == p % size
    ensures p < size ==> p / size == 0 && p % size == p
    ensures size <= p < 2 * size ==> p / size == 1
    ensures size <= p ==> p / size >= 1
  {
    var item, rest := p / size, p % size;
    assert p == item * size + rest && p + size == (item + 1) * size + rest;
    Division(p + size, size, item + 1, rest);
    if p < size {
      Division(p, size, 0, p);
    } else if p < 2 * size {
      Division(p, size, 1, p - size);
    } else if item == 0 {
      assert false;
    }
  }

  /**
   The numbering of nodes by offsets: the first node for the first two items, one node further for every
   further item; and the same place within the node for every item.
   */
  lemma NodeNumbers(quantum: nat, qset: nat, p: nat)
    requires 0 < quantum && 0 < qset
    ensures var size, a := ItemSize(quantum, qset), AddrOf(quantum, qset, p);
      var b := AddrOf(quantum, qset, p + size);
      && (p < 2 * size ==> a.node == 0)
      && b.node == (if p >= size then a.node + 1 else 0)
      && b.s == a.s && b.q == a.q
      && (p < size ==> p == a.s * quantum + a.q)
  {
    ItemNumbers(ItemSize(quantum, qset), p);
  }

  /** Two offsets share a byte of storage exactly when they are p and p + itemsize with p inside item 0. */
  lemma SharedStorage(quantum: nat, qset: nat, p: nat, p': nat)
    requires 0 < quantum && 0 < qset && p <= p'
    ensures var size := ItemSize(quantum, qset);
      AddrOf(quantum, qset, p) == AddrOf(quantum, qset, p') <==> p == p' || (p < size && p' == p + size)
  {
    var size := ItemSize(quantum, qset);
    if p < size && p' == p + size {
      Division(p, size, 0, p);
      Division(p', size, 1, p);
    } else if AddrOf(quantum, qset, p) == AddrOf(quantum, qset, p') {
      SameRemainder(p % size, p' % size, quantum);
      SameRest(size, p, p');
    }
  }

  lemma SameRemainder(rest: nat, rest': nat, quantum: nat)
    requires 0 < quantum && rest / quantum == rest' / quantum && rest % quantum == rest' % quantum
    ensures rest == rest'
  {
    assert rest == rest / quantum * quantum + rest % quantum;
    assert rest' == rest' / quantum * quantum + rest' % quantum;
  }

  /** Offsets with the same rest in the same node are equal or one item apart across items 0 and 1. */
  lemma SameRest(size: nat, p: nat, p': nat)
    requires 0 < size && p <= p' && p % size == p' % size && NodeOf(p / size) == NodeOf(p' / size)
    ensures p == p' || (p < size && p' == p + size)
  {
    var item, item' := p / size, p' / size;
    assert p == item * size + p % size && p' == item' * size + p % size;
    assert item == item' || item + item' == 1;
  }

  /** Where offset `p` lies, given as item, quantum and byte. */
  lemma LiesAt(quantum: nat, size: nat, qset: nat, p: nat, item: nat, s: nat, q: nat)
    requires 0 < quantum && size == quantum * qset && 0 < size && s < qset && q < quantum
    requires p == item * size + (s * quantum + q)
    ensures p / size == item && p % size / quantum == s && p % size % quantum == q
  {
    MulMonotone(s + 1, qset, quantum);
    assert (s + 1) * quantum == s * quantum + quantum && qset * quantum == size;
    Division(p, size, item, s * quantum + q);
    Division(s * quantum + q, quantum, s, q);
  }

  /** The bytes from an offset to the end of its quantum lie side by side. */
  lemma SameQuantum(quantum: nat, qset: nat, p: nat, p': nat)
    requires 0 < quantum && 0 < qset && p <= p'
    requires AddrOf(quantum, qset, p).q + (p' - p) < quantum
    ensures var a := AddrOf(quantum, qset, p);
      AddrOf(quantum, qset, p') == Addr(a.node, a.s, a.q + (p' - p))
  {
    var a, size := AddrOf(quantum, qset, p), ItemSize(quantum, qset);
    var item, rest := p / size, p % size;
    assert p == item * size + rest && rest == a.s * quantum + a.q;
    LiesAt(quantum, size, qset, p', item, a.s, a.q + (p' - p));
  }

  /** All that reading and writing rely on about the address map. */
  ghost predicate Lawful(m: AddrMap) {
    && 0 < m.quantum <= m.itemSize
    && (forall p: nat :: m.addr(p).q < m.quantum)
    && (forall p: nat, p': nat :: p <= p' && m.addr(p).q + (p' - p) < m.quantum ==>
        m.addr(p') == Addr(m.addr(p).node, m.addr(p).s, m.addr(p).q + (p' - p)))
    && (forall p: nat, p': nat :: p < p' ==> (m.addr(p) == m.addr(p') <==> p < m.itemSize && p' == p + m.itemSize))
  }

  function MapOf(quantum: nat, qset: nat): AddrMap
    requires 0 < quantum && 0 < qset
  {
    AddrMap((pos: nat) => AddrOf(quantum, qset, pos), quantum, ItemSize(quantum, qset))
  }

  lemma MapIsLawful(quantum: nat, qset: nat)
    requires 0 < quantum && 0 < qset
    ensures Lawful(MapOf(quantum, qset))
    ensures forall p: nat :: MapOf(quantum, qset).addr(p).s < qset
  {
    var m := MapOf(quantum, qset);
    forall p: nat, p': nat | p <= p' && m.addr(p).q + (p' - p) < quantum
      ensures m.addr(p') == Addr(m.addr(p).node, m.addr(p).s, m.addr(p).q + (p' - p))
    {
      SameQuantum(quantum, qset, p, p');
    }
    forall p: nat, p': nat | p < p'
      ensures m.addr(p) == m.addr(p') <==> p < m.itemSize && p' == p + m.itemSize
    {
      SharedStorage(quantum, qset, p, p');
    }
  }

  // ---- Contents ----

  /** The stored byte, if its quantum exists. */
  ghost function Lookup(d: Dev, a: Addr): Option<byte> {
    if a.node >= |d.nodes| || d.nodes[a.node].data.None? then None
    else
      var slots := d.nodes[a.node].data.value;
      if a.s >= |slots| || slots[a.s].None? || a.q >= |slots[a.s].value| then None
      else Some(slots[a.s].value[a.q])
  }

  function Blank(n: nat): (s: seq<Node>)
    ensures |s| == n && forall i :: 0 <= i < n ==> s[i] == EMPTY_NODE
  {
    seq(n, _ => EMPTY_NODE)
  }

  /** `scull_find_item`: the list reaches node `n`, missing nodes appended without data. */
  function Grown(d: Dev, n: nat): (r: Dev)
    ensures n < |r.nodes|
  {
    if n < |d.nodes| then d else d.(nodes := d.nodes + Blank(n + 1 - |d.nodes|))
  }

  lemma GrownKeeps(d: Dev, n: nat)
    ensures Geometry(d) ==> Geometry(Grown(d, n))
    ensures forall a :: Lookup(Grown(d, n), a) == Lookup(d, a)
  {
  }

  /** The array of node `n`, allocated if missing. */
  function ArrayOf(d: Dev, n: nat): seq<Quantum>
    requires n < |d.nodes| && 0 <= d.qset
  {
    if d.nodes[n].data.Some? then d.nodes[n].data.value else seq(d.qset, _ => None)
  }

  /** The quantum, allocated zeroed if missing. */
  function QuantumOf(slots: seq<Quantum>, s: nat, quantum: nat): seq<byte>
    requires s < |slots|
  {
    if slots[s].Some? then slots[s].value else seq(quantum, _ => 0)
  }

  /** The storage after `data` has been laid at address `a`, allocating on the way. */
  function Stored(d: Dev, a: Addr, data: seq<byte>): Dev
    requires Geometry(d) && a.s < d.qset && a.q + |data| <= d.quantum
  {
    GrownKeeps(d, a.node);
    var g := Grown(d, a.node);
    var slots := ArrayOf(g, a.node);
    var bytes := Splice(QuantumOf(slots, a.s, d.quantum), a.q, data);
    g.(nodes := g.nodes[a.node := Node(Some(slots[a.s := Some(bytes)]))])
  }

  ghost predicate Within(b: Addr, a: Addr, n: nat) {
    b.node == a.node && b.s == a.s && a.q <= b.q < a.q + n
  }

  /** A store puts its bytes where it says and keeps every other stored byte; bytes that appear are zero. */
  lemma StoredIs(d: Dev, a: Addr, data: seq<byte>)
    requires Geometry(d) && a.s < d.qset && a.q + |data| <= d.quantum
    ensures var e := Stored(d, a, data);
      && Geometry(e) && e.quantum == d.quantum && e.qset == d.qset && e.size == d.size
      && forall b :: Lookup(e, b) ==
          if Within(b, a, |data|) then Some(data[b.q - a.q])
          else if Lookup(d, b) == None && b.node == a.node && b.s == a.s && b.q < d.quantum then Some(0)
          else Lookup(d, b)
  {
    GrownKeeps(d, a.node);
    var g := Grown(d, a.node);
    var e := Stored(d, a, data);
    forall b: Addr | b.node != a.node ensures Lookup(e, b) == Lookup(g, b) {
    }
  }

  /** What a user of the device can see: the stored bytes and the size. */
  datatype Contents = Contents(at: Addr -> Option<byte>, size: nat)

  ghost function ContentsOf(d: Dev): Contents {
    Contents(a => Lookup(d, a), d.size)
  }

  // ---- Reads and writes by what they do ----

  /** How many bytes fit from `pos` to the end of its quantum. */
  ghost function Room(m: AddrMap, pos: nat): (n: nat)
    ensures n > 0
  {
    if m.addr(pos).q < m.quantum then m.quantum - m.addr(pos).q else 1
  }

  /** The bytes of `data`, laid out from offset `pos`, are stored at the offsets [from, to). */
  ghost predicate Holds(c: Contents, m: AddrMap, pos: nat, data: seq<byte>, from: nat, to: nat)
    requires pos <= from && to <= pos + |data|
  {
    forall p: nat :: from <= p < to ==> c.at(m.addr(p)) == Some(data[p - pos])
  }

  /** A successful write of [from, to): its bytes are stored, every other stored byte is kept, the size covers it. */
  ghost predicate OneWrite(c: Contents, m: AddrMap, pos: nat, data: seq<byte>, from: nat, to: nat, c': Contents)
    requires pos <= from && to <= pos + |data|
  {
    && c'.size == (if c.size < to then to else c.size)
    && Holds(c', m, pos, data, from, to)
    && (forall b :: c.at(b).Some? && (forall p: nat :: from <= p < to ==> m.addr(p) != b) ==> c'.at(b) == c.at(b))
  }

  /**
   How many bytes a read returns: as many as asked for, stored before the end of the
   file and left in the quantum; none in a hole.
   */
  ghost function ReadLength(c: Contents, m: AddrMap, at: nat, count: nat): (n: nat)
    ensures n <= count
  {
    if at >= c.size || c.at(m.addr(at)).None? then 0 else Min(Min(count, c.size - at), Room(m, at))
  }

  /** The range lies in one quantum, byte after byte. */
  ghost predicate Contiguous(m: AddrMap, pos: nat, n: nat) {
    forall p: nat :: pos <= p < pos + n ==>
      m.addr(p) == Addr(m.addr(pos).node, m.addr(pos).s, m.addr(pos).q + (p - pos))
  }

  lemma RoomIsContiguous(m: AddrMap, pos: nat, n: nat)
    requires Lawful(m) && n <= Room(m, pos)
    ensures Contiguous(m, pos, n) && m.addr(pos).q + n <= m.quantum
  {
  }

  /** A cell of the quantum inside the range belongs to some offset of the range. */
  lemma InsideIsAddressed(m: AddrMap, pos: nat, n: nat, b: Addr)
    requires Contiguous(m, pos, n) && Within(b, m.addr(pos), n)
    ensures exists p: nat :: pos <= p < pos + n && m.addr(p) == b
  {
    var p: nat := pos + (b.q - m.addr(pos).q);
    assert m.addr(p) == b;
  }

  /** The storage computed by `Stored`, with the size brought up to date, is a write. */
  lemma StoredIsWrite(d: Dev, m: AddrMap, pos: nat, data: seq<byte>, e: Dev)
    requires Geometry(d) && Contiguous(m, pos, |data|)
    requires m.addr(pos).s < d.qset && m.addr(pos).q + |data| <= d.quantum
    requires e == Stored(d, m.addr(pos), data).(size := if d.size < pos + |data| then pos + |data| else d.size)
    ensures Geometry(e) && OneWrite(ContentsOf(d), m, pos, data, pos, pos + |data|, ContentsOf(e))
  {
    var a, st := m.addr(pos), Stored(d, m.addr(pos), data);
    StoredIs(d, a, data);
    var c, c' := ContentsOf(d), ContentsOf(e);
    assert forall b :: c'.at(b) == Lookup(st, b) && c.at(b) == Lookup(d, b);
    forall p: nat | pos <= p < pos + |data| ensures c'.at(m.addr(p)) == Some(data[p - pos]) {
      assert Within(m.addr(p), a, |data|);
    }
    forall b | c.at(b).Some? && forall p: nat :: pos <= p < pos + |data| ==> m.addr(p) != b
      ensures c'.at(b) == c.at(b)
    {
      if Within(b, a, |data|) {
        InsideIsAddressed(m, pos, |data|, b);
      }
    }
    assert OneWrite(c, m, pos, data, pos, pos + |data|, c');
    assert forall i :: 0 <= i < |e.nodes| ==> e.nodes[i] == st.nodes[i];
  }

  // ---- Programs that write or read until done ----

  /**
   Writing `data` at `pos` in short writes: the contents `cs` before, between and after, and the
   offsets `cuts` reached.
   */
  datatype WriteRun = WriteRun(cs: seq<Contents>, cuts: seq<nat>)

  /** The `i`-th write takes what is left of the data, up to the end of a quantum. */
  ghost predicate Piece(r: WriteRun, m: AddrMap, pos: nat, data: seq<byte>, i: nat)
    requires i + 1 < |r.cs| == |r.cuts|
  {
    var from, to := r.cuts[i], r.cuts[i + 1];
    && pos <= from < to == from + Min(pos + |data| - from, Room(m, from))
    && OneWrite(r.cs[i], m, pos, data, from, to, r.cs[i + 1])
  }

  ghost predicate Writes(r: WriteRun, m: AddrMap, pos: nat, data: seq<byte>) {
    && 0 < |r.cs| == |r.cuts|
    && r.cuts[0] == pos && r.cuts[|r.cuts| - 1] == pos + |data|
    && forall i: nat :: i + 1 < |r.cs| ==> Piece(r, m, pos, data, i)
  }

  ghost function Last(r: WriteRun): Contents
    requires r.cs != []
  {
    r.cs[|r.cs| - 1]
  }

  /** What reading at an offset for so many bytes returns. */
  type Reader = (nat, nat) -> seq<byte>

  ghost predicate Bounded(read: Reader) {
    forall at: nat, n: nat :: |read(at, n)| <= n
  }

  /** What a program gets that reads [pos, end) until a read returns nothing. */
  ghost function CopiesOut(read: Reader, pos: nat, end: nat): (r: seq<byte>)
    requires Bounded(read) && pos <= end
    ensures |r| <= end - pos
    decreases end - pos
  {
    var bytes := read(pos, end - pos);
    if bytes == [] then [] else bytes + CopiesOut(read, pos + |bytes|, end)
  }

  /** A read returns what the contents say. */
  ghost predicate ReadsAt(read: Reader, c: Contents, m: AddrMap, at: nat, n: nat) {
    |read(at, n)| == ReadLength(c, m, at, n) && Holds(c, m, at, read(at, n), at, at + |read(at, n)|)
  }

  ghost predicate ReadsFrom(read: Reader, c: Contents, m: AddrMap) {
    forall at: nat, n: nat :: ReadsAt(read, c, m, at, n)
  }

  /** `bytes` goes on with `rest` from `k` to its end. */
  ghost predicate EndsWith(bytes: seq<byte>, k: nat, rest: seq<byte>) {
    |bytes| == k + |rest| && forall i :: 0 <= i < |rest| ==> rest[i] == bytes[k + i]
  }

  lemma JoinEnd(bytes: seq<byte>, k: nat, got: seq<byte>, rest: seq<byte>)
    requires EndsWith(bytes, k + |got|, rest)
    requires forall i :: 0 <= i < |got| ==> got[i] == bytes[k + i]
    ensures EndsWith(bytes, k, got + rest)
  {
    forall i | 0 <= i < |got + rest| ensures (got + rest)[i] == bytes[k + i] {
      if i >= |got| {
        assert (got + rest)[i] == rest[i - |got|];
      }
    }
  }

  /** A read in a stored range returns the next part of it. */
  lemma ReadIsPart(c: Contents, m: AddrMap, pos: nat, want: seq<byte>, at: nat, got: seq<byte>)
    requires pos <= at && at + |got| <= pos + |want|
    requires Holds(c, m, pos, want, at, pos + |want|) && Holds(c, m, at, got, at, at + |got|)
    ensures forall i :: 0 <= i < |got| ==> got[i] == want[at - pos + i]
  {
    forall i | 0 <= i < |got| ensures got[i] == want[at - pos + i] {
      var p: nat := at + i;
      assert c.at(m.addr(p)) == Some(got[p - at]) == Some(want[p - pos]);
    }
  }

  /** If every byte of the range is stored, repeated reads return the range. */
  lemma {:induction false} CopiesOutStored(read: Reader, c: Contents, m: AddrMap, pos: nat, want: seq<byte>, at: nat)
    requires Bounded(read) && ReadsFrom(read, c, m)
    requires pos <= at <= pos + |want| <= c.size && Holds(c, m, pos, want, at, pos + |want|)
    ensures EndsWith(want, at - pos, CopiesOut(read, at, pos + |want|))
    decreases pos + |want| - at
  {
    if at < pos + |want| {
      var got := read(at, pos + |want| - at);
      assert ReadsAt(read, c, m, at, pos + |want| - at) && c.at(m.addr(at)).Some?;
      ReadIsPart(c, m, pos, want, at, got);
      CopiesOutStored(read, c, m, pos, want, at + |got|);
      JoinEnd(want, at - pos, got, CopiesOut(read, at + |got|, pos + |want|));
    }
  }

  /** Storage that is not addressed from the `i`-th write on keeps its bytes to the end. */
  lemma {:induction false} WritesKeep(r: WriteRun, m: AddrMap, pos: nat, data: seq<byte>, i: nat, b: Addr)
    requires Writes(r, m, pos, data) && i < |r.cs| && r.cs[i].at(b).Some?
    requires forall p: nat :: r.cuts[i] <= p < pos + |data| ==> m.addr(p) != b
    ensures Last(r).at(b) == r.cs[i].at(b)
    decreases |r.cs| - i
  {
    if i + 1 < |r.cs| {
      assert Piece(r, m, pos, data, i);
      WritesKeep(r, m, pos, data, i + 1, b);
    }
  }

  lemma {:induction false} WritesCover(r: WriteRun, m: AddrMap, pos: nat, data: seq<byte>, i: nat)
    requires Writes(r, m, pos, data) && i < |r.cs|
    ensures Last(r).size >= r.cs[i].size && (i + 1 < |r.cs| ==> Last(r).size >= pos + |data|)
    decreases |r.cs| - i
  {
    if i + 1 < |r.cs| {
      assert Piece(r, m, pos, data, i);
      WritesCover(r, m, pos, data, i + 1);
    }
  }

  /** No later offset of a range that ends at `end` goes to the cell of `w`. */
  ghost predicate LastTo(m: AddrMap, w: nat, end: nat) {
    forall p: nat :: w < p < end ==> m.addr(p) != m.addr(w)
  }

  /** A cell not written again later holds what was written through it. */
  lemma {:induction false} WritesStore(r: WriteRun, m: AddrMap, pos: nat, data: seq<byte>, i: nat, w: nat)
    requires Writes(r, m, pos, data) && i < |r.cs|
    requires pos <= r.cuts[i] <= w < pos + |data| && LastTo(m, w, pos + |data|)
    ensures Last(r).at(m.addr(w)) == Some(data[w - pos])
    decreases |r.cs| - i
  {
    assert Piece(r, m, pos, data, i);
    if w >= r.cuts[i + 1] {
      WritesStore(r, m, pos, data, i + 1, w);
    } else {
      assert r.cs[i + 1].at(m.addr(w)) == Some(data[w - pos]);
      WritesKeep(r, m, pos, data, i + 1, m.addr(w));
    }
  }

  /** The offset whose byte ends up in the storage of `p`: its twin one item up, if that is written too. */
  function Winner(itemSize: nat, end: nat, p: nat): nat {
    if p < itemSize && p + itemSize < end then p + itemSize else p
  }

  lemma WinnerIsLast(m: AddrMap, end: nat, p: nat)
    requires Lawful(m) && p < end
    ensures var w := Winner(m.itemSize, end, p);
      p <= w < end && m.addr(w) == m.addr(p) && LastTo(m, w, end)
  {
  }

  /** What is read back from a range after it was written. */
  function ReadBack(itemSize: nat, pos: nat, data: seq<byte>): (r: seq<byte>)
    ensures |r| == |data|
    ensures forall k :: 0 <= k < |data| ==>
      r[k] == if pos + k < itemSize && k + itemSize < |data| then data[k + itemSize] else data[k]
  {
    seq(|data|, k requires 0 <= k < |data| =>
      if pos + k < itemSize && k + itemSize < |data| then data[k + itemSize] else data[k])
  }

  /** Every cell of a written range holds the byte that was written there last. */
  lemma WrittenCell(r: WriteRun, m: AddrMap, pos: nat, data: seq<byte>, k: nat)
    requires Lawful(m) && Writes(r, m, pos, data) && k < |data|
    ensures Last(r).at(m.addr(pos + k)) == Some(ReadBack(m.itemSize, pos, data)[k])
  {
    var w := Winner(m.itemSize, pos + |data|, pos + k);
    WinnerIsLast(m, pos + |data|, pos + k);
    WritesStore(r, m, pos, data, 0, w);
  }

  lemma WritesHold(r: WriteRun, m: AddrMap, pos: nat, data: seq<byte>, want: seq<byte>)
    requires Lawful(m) && Writes(r, m, pos, data) && want == ReadBack(m.itemSize, pos, data)
    ensures Holds(Last(r), m, pos, want, pos, pos + |want|)
  {
    forall k: nat | k < |want| ensures HoldsAt(Last(r), m, pos, want, k) {
      WrittenCell(r, m, pos, data, k);
    }
    AllHold(Last(r), m, pos, want);
  }

  ghost predicate HoldsAt(c: Contents, m: AddrMap, pos: nat, want: seq<byte>, k: nat) {
    k < |want| && c.at(m.addr(pos + k)) == Some(want[k])
  }

  lemma AllHold(c: Contents, m: AddrMap, pos: nat, want: seq<byte>)
    requires forall k: nat :: k < |want| ==> HoldsAt(c, m, pos, want, k)
    ensures Holds(c, m, pos, want, pos, pos + |want|)
  {
    forall p: nat | pos <= p < pos + |want| ensures c.at(m.addr(p)) == Some(want[p - pos]) {
      assert HoldsAt(c, m, pos, want, p - pos);
    }
  }

  /**
   Writing a range in as many short writes as it takes and reading it back in as many
   short reads as it takes, at every position and length: the bytes that come back.
   */
  lemma WriteThenRead(r: WriteRun, m: AddrMap, pos: nat, data: seq<byte>, read: Reader)
    requires Lawful(m) && Writes(r, m, pos, data) && Bounded(read) && ReadsFrom(read, Last(r), m)
    ensures CopiesOut(read, pos, pos + |data|) == ReadBack(m.itemSize, pos, data)
  {
    if data != [] {
      var want := ReadBack(m.itemSize, pos, data);
      WritesCover(r, m, pos, data, 0);
      WritesHold(r, m, pos, data, want);
      CopiesOutStored(read, Last(r), m, pos, want, pos);
      assert EndsWith(want, 0, CopiesOut(read, pos, pos + |want|));
    }
  }

  /**
   The round trip: a range comes back as it was written whenever it starts past item 0 or
   is no longer than an item, and in general exactly when the bytes that share storage agree.
   */
  lemma RoundTrip(itemSize: nat, pos: nat, data: seq<byte>)
    ensures pos >= itemSize || |data| <= itemSize ==> ReadBack(itemSize, pos, data) == data
    ensures ReadBack(itemSize, pos, data) == data <==>
      forall k :: 0 <= k < |data| && pos + k < itemSize && k + itemSize < |data| ==> data[k] == data[k + itemSize]
  {
    var back := ReadBack(itemSize, pos, data);
    assert back == data <==> forall k :: 0 <= k < |data| ==> back[k] == data[k];
  }
}
