/**
 The bare scull device: `scull_find_item`, `scull_read`, `scull_write`,
 `scull_dev_reset` and the ioctl commands, each file operation taken as one
 atomic step, and what holds over every serial run of them.
 */
module ScullDevice {
  import opened Common
  import opened ScullStore

  datatype ReadResult = Fault | Data(bytes: seq<byte>)
  datatype WriteResult = NoMemory | BadAddress | Wrote(count: nat)

  /** Nodes to allocate before the list reaches node `n`. */
  function Missing(nodes: seq<Node>, n: nat): nat {
    if n < |nodes| then 0 else n + 1 - |nodes|
  }

  /** The bytes from `pos` to the end of its quantum. */
  function Left(d: Dev, pos: nat): (n: nat)
    requires 0 < d.quantum && 0 < d.qset
    ensures 0 < n <= d.quantum
  {
    d.quantum - AddrOf(d.quantum, d.qset, pos).q
  }

  /** The list as `scull_find_item` leaves it when `allocs` allocations succeed before one fails. */
  function Found(d: Dev, n: nat, allocs: nat): Dev {
    d.(nodes := d.nodes + Blank(Min(Missing(d.nodes, n), allocs)))
  }

  /** Where there is a file, the sizes are positive and its end lies in a node that exists. */
  predicate Covered(d: Dev) {
    0 < d.size ==>
      0 < d.quantum && 0 < d.qset && AddrOf(d.quantum, d.qset, d.size - 1).node < |d.nodes|
  }

  /** The stored bytes of the quantum at `a`, if there is one. */
  function Bytes(d: Dev, a: Addr): Quantum {
    if a.node < |d.nodes| && d.nodes[a.node].data.Some? && a.s < |d.nodes[a.node].data.value|
    then d.nodes[a.node].data.value[a.s] else None
  }

  /** `scull_read`: device, result. */
  function ReadDev(d: Dev, pos: nat, count: nat, allocs: nat, copied: nat): (Dev, ReadResult)
    requires Geometry(d) && Covered(d)
  {
    if pos >= d.size then (d, Data([]))
    else
      var a := AddrOf(d.quantum, d.qset, pos);
      if Bytes(d, a).None? then (Found(d, a.node, allocs), Data([]))
      else
        var n := Min(Min(count, d.size - pos), Left(d, pos));
        (d, if copied < n then Fault else Data(Bytes(d, a).value[a.q..a.q + n]))
  }

  /** How many allocations a write at `a` makes: the missing nodes, the array, the quantum. */
  function Needed(d: Dev, a: Addr): nat {
    var forArray := if a.node < |d.nodes| && d.nodes[a.node].data.Some? then 0 else 1;
    Missing(d.nodes, a.node) + forArray + if Bytes(d, a).None? then 1 else 0
  }

  /** The device when a write runs out of memory after `allocs` allocations. */
  function Exhausted(d: Dev, a: Addr, allocs: nat): Dev
    requires 0 <= d.qset
  {
    if allocs <= Missing(d.nodes, a.node) then Found(d, a.node, allocs)
    else
      var g := Grown(d, a.node);
      g.(nodes := g.nodes[a.node := Node(Some(ArrayOf(g, a.node)))])
  }

  function Max(a: nat, b: nat): nat {
    if a < b then b else a
  }

  /** `scull_write`: device, result. */
  function WriteDev(d: Dev, pos: nat, data: seq<byte>, allocs: nat, copied: nat): (Dev, WriteResult)
    requires 0 < d.quantum && 0 < d.qset && Geometry(d)
  {
    var a := AddrOf(d.quantum, d.qset, pos);
    var n := Min(|data|, Left(d, pos));
    if allocs < Needed(d, a) then (Exhausted(d, a, allocs), NoMemory)
    else if copied < n then (Stored(d, a, data[..copied]), BadAddress)
    else (Stored(d, a, data[..n]).(size := Max(d.size, pos + n)), Wrote(n))
  }

  /** Storing is allocating what is missing, then copying. */
  lemma StoredInTwoSteps(d: Dev, a: Addr, data: seq<byte>, nodes: seq<Node>)
    requires Geometry(d) && a.s < d.qset && a.q + |data| <= d.quantum
    requires var g := Grown(d, a.node);
      var slots := ArrayOf(g, a.node);
      Geometry(g) && nodes == g.nodes[a.node := Node(Some(slots[a.s := Some(QuantumOf(slots, a.s, d.quantum))]))]
    ensures var slots := nodes[a.node].data.value;
      Stored(d, a, data) ==
        d.(nodes := nodes[a.node := Node(Some(slots[a.s := Some(Splice(slots[a.s].value, a.q, data))]))])
  {
    var slots := ArrayOf(Grown(d, a.node), a.node);
    var bytes := Splice(QuantumOf(slots, a.s, d.quantum), a.q, data);
    var filled := nodes[a.node].data.value;
    assert filled[a.s := Some(bytes)] == slots[a.s := Some(bytes)];
    assert nodes[a.node := Node(Some(slots[a.s := Some(bytes)]))]
        == Grown(d, a.node).nodes[a.node := Node(Some(slots[a.s := Some(bytes)]))];
  }

  // ---- What reads and writes do to the contents ----

  ghost predicate Sound(d: Dev) {
    Geometry(d) && Covered(d)
  }

  lemma QuotientMonotone(size: nat, q: nat, r: nat, q': nat, r': nat)
    requires q * size + r <= q' * size + r' && r' < size
    ensures q <= q'
  {
    assert (q' + 1) * size == q' * size + size;
    if q' < q {
      MulMonotone(q' + 1, q, size);
    }
  }

  lemma NodeMonotone(quantum: nat, qset: nat, p: nat, p': nat)
    requires 0 < quantum && 0 < qset && p <= p'
    ensures AddrOf(quantum, qset, p).node <= AddrOf(quantum, qset, p').node
  {
    var size := ItemSize(quantum, qset);
    QuotientMonotone(size, p / size, p % size, p' / size, p' % size);
  }

  /** A read inside the file finds its place in a node that exists, so it appends none. */
  lemma InsideNode(d: Dev, pos: nat)
    requires Sound(d) && pos < d.size
    ensures 0 < d.quantum && 0 < d.qset && AddrOf(d.quantum, d.qset, pos).node < |d.nodes|
  {
    NodeMonotone(d.quantum, d.qset, pos, d.size - 1);
  }

  /**
   A read returns exactly the stored bytes, up to the end of file and of the quantum, none in a hole or past
   the end of file; it changes nothing, and does not even append nodes.
   */
  lemma ReadLaw(d: Dev, pos: nat, count: nat, allocs: nat, copied: nat)
    requires Sound(d)
    ensures var r := ReadDev(d, pos, count, allocs, copied);
      && r.0 == d
      && (pos >= d.size ==> r.1 == Data([]))
      && (0 < d.quantum && 0 < d.qset ==>
          var c, m := ContentsOf(d), MapOf(d.quantum, d.qset);
          && (r.1 == Fault <==> copied < ReadLength(c, m, pos, count))
          && (r.1.Data? ==>
              |r.1.bytes| == ReadLength(c, m, pos, count) && Holds(c, m, pos, r.1.bytes, pos, pos + |r.1.bytes|)))
  {
    if pos < d.size {
      InsideNode(d, pos);
      assert d.nodes + Blank(0) == d.nodes;
      ReadInside(d, pos, count, allocs, copied);
    }
  }

  lemma ReadInside(d: Dev, pos: nat, count: nat, allocs: nat, copied: nat)
    requires Sound(d) && pos < d.size && 0 < d.quantum && 0 < d.qset
    ensures var c, m, r := ContentsOf(d), MapOf(d.quantum, d.qset), ReadDev(d, pos, count, allocs, copied);
      && (r.1 == Fault <==> copied < ReadLength(c, m, pos, count))
      && (r.1.Data? ==>
          |r.1.bytes| == ReadLength(c, m, pos, count) && Holds(c, m, pos, r.1.bytes, pos, pos + |r.1.bytes|))
  {
    var c, m, r := ContentsOf(d), MapOf(d.quantum, d.qset), ReadDev(d, pos, count, allocs, copied);
    var a := AddrOf(d.quantum, d.qset, pos);
    assert m.addr(pos) == a && c.at(a) == Lookup(d, a);
    if r.1.Data? && r.1.bytes != [] {
      forall p: nat | pos <= p < pos + |r.1.bytes| ensures c.at(m.addr(p)) == Some(r.1.bytes[p - pos]) {
        SameQuantum(d.quantum, d.qset, pos, p);
        assert Lookup(d, m.addr(p)) == Some(Bytes(d, a).value[a.q + (p - pos)]);
      }
    }
  }

  /** No stored byte is lost. */
  ghost predicate Keeps(d: Dev, e: Dev) {
    forall b :: Lookup(d, b).Some? ==> Lookup(e, b) == Lookup(d, b)
  }

  /** A write that runs out of memory loses nothing, whatever it has allocated by then. */
  lemma NoMemoryKeeps(d: Dev, pos: nat, data: seq<byte>, allocs: nat, copied: nat)
    requires 0 < d.quantum && 0 < d.qset && Sound(d)
    requires WriteDev(d, pos, data, allocs, copied).1.NoMemory?
    ensures var e := WriteDev(d, pos, data, allocs, copied).0;
      Keeps(d, e) && Sound(e) && e.size == d.size && e.quantum == d.quantum && e.qset == d.qset
  {
    var e := WriteDev(d, pos, data, allocs, copied).0;
    var a := AddrOf(d.quantum, d.qset, pos);
    GrownKeeps(d, a.node);
    assert |e.nodes| >= |d.nodes|;
  }

  /** A write that fails while copying has overwritten what it copied and nothing else, and the size stays. */
  lemma BadAddressKeeps(d: Dev, pos: nat, data: seq<byte>, allocs: nat, copied: nat)
    requires 0 < d.quantum && 0 < d.qset && Sound(d)
    requires WriteDev(d, pos, data, allocs, copied).1.BadAddress?
    ensures var a, e := AddrOf(d.quantum, d.qset, pos), WriteDev(d, pos, data, allocs, copied).0;
      && Sound(e) && e.size == d.size && e.quantum == d.quantum && e.qset == d.qset && copied < |data|
      && forall b :: Lookup(d, b).Some? ==>
          Lookup(e, b) == if Within(b, a, copied) then Some(data[b.q - a.q]) else Lookup(d, b)
  {
    StoredIs(d, AddrOf(d.quantum, d.qset, pos), data[..copied]);
  }

  /** A store at the address of `pos`, within its quantum, keeps the device sound. */
  lemma StoreKeepsSound(d: Dev, pos: nat, data: seq<byte>, size: nat)
    requires 0 < d.quantum && 0 < d.qset && Sound(d) && |data| <= Left(d, pos)
    requires size == d.size || size == pos + |data|
    ensures Sound(Stored(d, AddrOf(d.quantum, d.qset, pos), data).(size := size))
  {
    var a := AddrOf(d.quantum, d.qset, pos);
    var st := Stored(d, a, data);
    StoredIs(d, a, data);
    assert |st.nodes| >= |d.nodes| && a.node < |st.nodes|;
    if data != [] {
      SameQuantum(d.quantum, d.qset, pos, pos + |data| - 1);
    } else if 0 < pos {
      NodeMonotone(d.quantum, d.qset, pos - 1, pos);
    }
    assert Geometry(st.(size := size)) by {
      assert st.(size := size).nodes == st.nodes;
    }
  }

  /** A write that succeeds stores its bytes where reads look for them and keeps all others. */
  lemma WroteIsWrite(d: Dev, pos: nat, data: seq<byte>, allocs: nat, copied: nat)
    requires 0 < d.quantum && 0 < d.qset && Sound(d)
    requires WriteDev(d, pos, data, allocs, copied).1.Wrote?
    ensures var r, m := WriteDev(d, pos, data, allocs, copied), MapOf(d.quantum, d.qset);
      && r.1.count == Min(|data|, Room(m, pos))
      && OneWrite(ContentsOf(d), m, pos, data, pos, pos + r.1.count, ContentsOf(r.0))
      && Sound(r.0) && r.0.quantum == d.quantum && r.0.qset == d.qset
  {
    var n := Min(|data|, Left(d, pos));
    StoreKeepsSound(d, pos, data[..n], Max(d.size, pos + n));
    StoreIsWrite(d, pos, data, n);
  }

  lemma StoreIsWrite(d: Dev, pos: nat, data: seq<byte>, n: nat)
    requires 0 < d.quantum && 0 < d.qset && Geometry(d) && n <= Left(d, pos) && n <= |data|
    ensures OneWrite(ContentsOf(d), MapOf(d.quantum, d.qset), pos, data, pos, pos + n,
              ContentsOf(Stored(d, AddrOf(d.quantum, d.qset, pos), data[..n]).(size := Max(d.size, pos + n))))
  {
    var m := MapOf(d.quantum, d.qset);
    var e := Stored(d, AddrOf(d.quantum, d.qset, pos), data[..n]).(size := Max(d.size, pos + n));
    MapIsLawful(d.quantum, d.qset);
    RoomIsContiguous(m, pos, n);
    StoredIsWrite(d, m, pos, data[..n], e);
    PrefixWrite(ContentsOf(d), m, pos, data, n, ContentsOf(e));
  }

  lemma PrefixWrite(c: Contents, m: AddrMap, pos: nat, data: seq<byte>, n: nat, c': Contents)
    requires n <= |data| && OneWrite(c, m, pos, data[..n], pos, pos + n, c')
    ensures OneWrite(c, m, pos, data, pos, pos + n, c')
  {
    forall p: nat | pos <= p < pos + n ensures c'.at(m.addr(p)) == Some(data[p - pos]) {
      assert c'.at(m.addr(p)) == Some(data[..n][p - pos]);
    }
  }

  /** Writing the rest of a range is the next piece of a run that writes the whole range. */
  lemma RestWrite(c: Contents, m: AddrMap, pos: nat, data: seq<byte>, from: nat, n: nat, c': Contents)
    requires pos <= from && from + n <= pos + |data|
    requires OneWrite(c, m, from, data[from - pos..], from, from + n, c')
    ensures OneWrite(c, m, pos, data, from, from + n, c')
  {
    forall p: nat | from <= p < from + n ensures c'.at(m.addr(p)) == Some(data[p - pos]) {
      assert c'.at(m.addr(p)) == Some(data[from - pos..][p - from]);
    }
  }

  // ---- Copying a range in and out of the device ----

  /**
   A program that writes `data` at `pos` in as many calls as it takes: the devices and the offsets it goes
   through. Every call asks for all that is left and succeeds.
   */
  ghost predicate CopiesIn(ds: seq<Dev>, cuts: seq<nat>, pos: nat, data: seq<byte>) {
    && 0 < |ds| == |cuts|
    && Sound(ds[0]) && 0 < ds[0].quantum && 0 < ds[0].qset
    && cuts[0] == pos && cuts[|cuts| - 1] == pos + |data|
    && forall i: nat :: i + 1 < |ds| && Sound(ds[i]) && 0 < ds[i].quantum && 0 < ds[i].qset ==>
        CopyCall(ds[i], cuts[i], pos, data, ds[i + 1], cuts[i + 1])
  }

  ghost predicate CopyCall(d: Dev, from: nat, pos: nat, data: seq<byte>, e: Dev, to: nat)
    requires 0 < d.quantum && 0 < d.qset && Sound(d)
  {
    && pos <= from < pos + |data| && from <= to
    && MaySucceed(d, from, data[from - pos..], e, to - from)
  }

  ghost predicate MaySucceed(d: Dev, from: nat, data: seq<byte>, e: Dev, n: nat)
    requires 0 < d.quantum && 0 < d.qset && Geometry(d)
  {
    exists allocs, copied :: Succeeds(d, from, data, allocs, copied, e, n)
  }

  ghost predicate Succeeds(d: Dev, from: nat, data: seq<byte>, allocs: nat, copied: nat, e: Dev, n: nat)
    requires 0 < d.quantum && 0 < d.qset && Geometry(d)
  {
    WriteDev(d, from, data, allocs, copied) == (e, Wrote(n))
  }

  /** Reading the device without faults. */
  ghost function ReaderOf(d: Dev): (read: Reader)
    requires Sound(d)
    ensures Bounded(read)
  {
    (at: nat, n: nat) => ReadDev(d, at, n, 0, n).1.bytes
  }

  lemma CopyCallIsPiece(d: Dev, from: nat, pos: nat, data: seq<byte>, e: Dev, to: nat)
    requires 0 < d.quantum && 0 < d.qset && Sound(d) && CopyCall(d, from, pos, data, e, to)
    ensures var m := MapOf(d.quantum, d.qset);
      && from < to == from + Min(pos + |data| - from, Room(m, from))
      && OneWrite(ContentsOf(d), m, pos, data, from, to, ContentsOf(e))
      && Sound(e) && e.quantum == d.quantum && e.qset == d.qset
  {
    var allocs, copied :| Succeeds(d, from, data[from - pos..], allocs, copied, e, to - from);
    WroteIsWrite(d, from, data[from - pos..], allocs, copied);
    RestWrite(ContentsOf(d), MapOf(d.quantum, d.qset), pos, data, from, to - from, ContentsOf(e));
  }

  /** The program stays on a sound device of one geometry. */
  lemma {:induction false} CopiesStaySound(ds: seq<Dev>, cuts: seq<nat>, pos: nat, data: seq<byte>, i: nat)
    requires CopiesIn(ds, cuts, pos, data) && i < |ds|
    ensures Sound(ds[i]) && ds[i].quantum == ds[0].quantum && ds[i].qset == ds[0].qset
  {
    if 0 < i {
      CopiesStaySound(ds, cuts, pos, data, i - 1);
      CopyCallIsPiece(ds[i - 1], cuts[i - 1], pos, data, ds[i - 1 + 1], cuts[i - 1 + 1]);
    }
  }

  lemma CopiesInIsRun(ds: seq<Dev>, cuts: seq<nat>, pos: nat, data: seq<byte>) returns (r: WriteRun)
    requires CopiesIn(ds, cuts, pos, data)
    ensures Writes(r, MapOf(ds[0].quantum, ds[0].qset), pos, data) && Last(r) == ContentsOf(ds[|ds| - 1])
  {
    var m := MapOf(ds[0].quantum, ds[0].qset);
    r := WriteRun(seq(|ds|, i requires 0 <= i < |ds| => ContentsOf(ds[i])), cuts);
    forall i: nat | i + 1 < |r.cs| ensures Piece(r, m, pos, data, i) {
      CopiesStaySound(ds, cuts, pos, data, i);
      CopyCallIsPiece(ds[i], cuts[i], pos, data, ds[i + 1], cuts[i + 1]);
    }
  }

  lemma ReaderReads(d: Dev)
    requires 0 < d.quantum && 0 < d.qset && Sound(d)
    ensures ReadsFrom(ReaderOf(d), ContentsOf(d), MapOf(d.quantum, d.qset))
  {
    forall at: nat, n: nat ensures ReadsAt(ReaderOf(d), ContentsOf(d), MapOf(d.quantum, d.qset), at, n) {
      ReadLaw(d, at, n, 0, n);
    }
  }

  /**
   Copying a range in and out again, at every position, length and geometry: what comes back.
   Past item 0, or for at most one item, it is what was copied in.
   */
  lemma CopyInCopyOut(ds: seq<Dev>, cuts: seq<nat>, pos: nat, data: seq<byte>)
    requires CopiesIn(ds, cuts, pos, data)
    ensures var d := ds[|ds| - 1];
      Sound(d) && 0 < d.quantum && 0 < d.qset &&
      var itemSize, back := ItemSize(d.quantum, d.qset), CopiesOut(ReaderOf(d), pos, pos + |data|);
      back == ReadBack(itemSize, pos, data) && (pos >= itemSize || |data| <= itemSize ==> back == data)
  {
    var d := ds[|ds| - 1];
    CopiesStaySound(ds, cuts, pos, data, |ds| - 1);
    var r := CopiesInIsRun(ds, cuts, pos, data);
    MapIsLawful(d.quantum, d.qset);
    RoundTrip(ItemSize(d.quantum, d.qset), pos, data);
    ReaderReads(d);
    WriteThenRead(r, MapOf(d.quantum, d.qset), pos, data, ReaderOf(d));
  }

  // ---- Reset ----

  ghost predicate Populated(nodes: seq<Node>) {
    forall i :: 0 <= i < |nodes| ==> nodes[i].data.Some?
  }

  /** A heap block the device owns. */
  datatype Block = NodeBlock(i: nat) | ArrayBlock(i: nat) | QuantumBlock(i: nat, s: nat)

  ghost predicate Owned(nodes: seq<Node>, b: Block) {
    && b.i < |nodes|
    && (!b.NodeBlock? ==> nodes[b.i].data.Some?)
    && (b.QuantumBlock? ==> b.s < |nodes[b.i].data.value| && nodes[b.i].data.value[b.s].Some?)
  }

  /** A pointer of the freeing loop: a node, the end of the list, or never set. */
  datatype Pointer = ToNode(i: nat) | Null | Unset

  /** One pass of the freeing loop moves (curr, next); `next` is advanced only when the node has data. */
  function Pass(nodes: seq<Node>, curr: Pointer, next: Pointer): (Pointer, Pointer)
    requires curr.ToNode? ==> curr.i < |nodes|
  {
    if !curr.ToNode? then (curr, next)
    else if nodes[curr.i].data.Some? then
      var n := if curr.i + 1 < |nodes| then ToNode(curr.i + 1) else Null;
      (n, n)
    else (next, next)
  }

  /** (curr, next) after `k` passes from the head of the list. */
  function Passes(nodes: seq<Node>, k: nat): (p: (Pointer, Pointer))
    ensures p.0.ToNode? ==> p.0.i < |nodes|
    ensures p.1.ToNode? ==> p.1.i < |nodes|
  {
    if k == 0 then (if nodes == [] then Null else ToNode(0), Unset)
    else
      var p := Passes(nodes, k - 1);
      Pass(nodes, p.0, p.1)
  }

  /** Up to the first node without data the loop advances one node a pass. */
  lemma {:induction false} PassesAdvance(nodes: seq<Node>, k: nat)
    requires k <= |nodes| && Populated(nodes[..k])
    ensures Passes(nodes, k).0 == if k < |nodes| then ToNode(k) else Null
    ensures 0 < k ==> Passes(nodes, k).1 == Passes(nodes, k).0
    ensures k == 0 ==> Passes(nodes, k).1 == Unset
  {
    if 0 < k {
      assert nodes[..k][k - 1] == nodes[k - 1];
      assert forall i :: 0 <= i < k - 1 ==> nodes[..k - 1][i] == nodes[..k][i];
      PassesAdvance(nodes, k - 1);
    }
  }

  /**
   A node without data stops the loop for good: the first one follows a pointer never set, any other
   is visited for ever.
   */
  lemma {:induction false} PassesStick(nodes: seq<Node>, i: nat, k: nat)
    requires i < |nodes| && Populated(nodes[..i]) && nodes[i].data.None? && i <= k
    ensures Passes(nodes, k).0 == if i == 0 && k > 0 then Unset else ToNode(i)
    ensures Passes(nodes, k).1 == if i == 0 then Unset else ToNode(i)
    decreases k
  {
    if i == k {
      PassesAdvance(nodes, k);
    } else {
      PassesStick(nodes, i, k - 1);
    }
  }

  /** Node `i` of the list, or its end. */
  function NodeAt(nodes: seq<Node>, i: nat): Pointer {
    if i < |nodes| then ToNode(i) else Null
  }

  lemma {:induction false} FirstUnpopulated(nodes: seq<Node>) returns (i: nat)
    requires !Populated(nodes)
    ensures i < |nodes| && Populated(nodes[..i]) && nodes[i].data.None?
  {
    i := 0;
    while nodes[i].data.Some?
      invariant i < |nodes| && forall j :: 0 <= j < i ==> nodes[j].data.Some?
      decreases |nodes| - i
    {
      if i + 1 == |nodes| {
        assert Populated(nodes);
        assert false;
      } else {
        i := i + 1;
      }
    }
  }

  /** The freeing loop reaches the end of the list. */
  ghost predicate Returns(nodes: seq<Node>) {
    exists k: nat :: Passes(nodes, k).0 == Null
  }

  /** The freeing loop of `scull_dev_reset` reaches the end of the list exactly when every node has an array. */
  lemma ResetEnds(nodes: seq<Node>)
    ensures Returns(nodes) <==> Populated(nodes)
  {
    if Populated(nodes) {
      PassesAdvance(nodes, |nodes|);
    } else {
      var i := FirstUnpopulated(nodes);
      forall k: nat ensures Passes(nodes, k).0 != Null {
        if k < i {
          assert forall j :: 0 <= j < k ==> nodes[..k][j] == nodes[..i][j];
          PassesAdvance(nodes, k);
        } else {
          PassesStick(nodes, i, k);
        }
      }
    }
  }

  /** Storing keeps every node populated exactly when it does not skip a node. */
  lemma SkippingUnpopulates(d: Dev, a: Addr, data: seq<byte>)
    requires Geometry(d) && Populated(d.nodes) && a.s < d.qset && a.q + |data| <= d.quantum
    ensures Populated(Stored(d, a, data).nodes) <==> a.node <= |d.nodes|
  {
    var e := Stored(d, a, data);
    if a.node > |d.nodes| {
      assert e.nodes[|d.nodes|] == EMPTY_NODE;
    }
  }

  /** Running out of memory keeps them populated unless a node was appended that got no array. */
  lemma ExhaustingUnpopulates(d: Dev, a: Addr, allocs: nat)
    requires Geometry(d) && Populated(d.nodes) && 0 < d.qset && allocs < Needed(d, a)
    ensures Populated(Exhausted(d, a, allocs).nodes) <==>
      a.node < |d.nodes| || allocs == 0 || (a.node == |d.nodes| && allocs >= 2)
  {
    var e, n := Exhausted(d, a, allocs), |d.nodes|;
    if n <= a.node && 0 < allocs && !(a.node == n && allocs >= 2) {
      assert e.nodes[n] == EMPTY_NODE;
    }
  }

  /**
   A write, whatever its outcome, keeps every node populated exactly when its node is there already, or
   nothing could be allocated, or its node is the next one and an array could be allocated for it.
   */
  lemma WriteUnpopulates(d: Dev, pos: nat, data: seq<byte>, allocs: nat, copied: nat)
    requires 0 < d.quantum && 0 < d.qset && Geometry(d) && Populated(d.nodes)
    ensures var node := AddrOf(d.quantum, d.qset, pos).node;
      Populated(WriteDev(d, pos, data, allocs, copied).0.nodes) <==>
        node < |d.nodes| || allocs == 0 || (node == |d.nodes| && allocs >= 2)
  {
    var a := AddrOf(d.quantum, d.qset, pos);
    var n := Min(|data|, Left(d, pos));
    if allocs < Needed(d, a) {
      ExhaustingUnpopulates(d, a, allocs);
    } else {
      SkippingUnpopulates(d, a, data[..Min(n, copied)]);
    }
  }

  // ---- Copying in and resetting ----

  lemma NextNode(quantum: nat, qset: nat, p: nat, n: nat)
    requires 0 < quantum && 0 < qset && n <= quantum
    ensures AddrOf(quantum, qset, p).node <= AddrOf(quantum, qset, p + n).node <= AddrOf(quantum, qset, p).node + 1
  {
    var size := ItemSize(quantum, qset);
    NodeMonotone(quantum, qset, p, p + n);
    NodeMonotone(quantum, qset, p + n, p + size);
    NodeNumbers(quantum, qset, p);
  }

  /** One call of a program that copies in: what it does to the list of nodes. */
  lemma CopyCallNodes(d: Dev, from: nat, pos: nat, data: seq<byte>, e: Dev, to: nat)
    requires 0 < d.quantum && 0 < d.qset && Sound(d) && CopyCall(d, from, pos, data, e, to)
    ensures var node := AddrOf(d.quantum, d.qset, from).node;
      && node < |e.nodes| && |d.nodes| <= |e.nodes|
      && node <= AddrOf(d.quantum, d.qset, to).node <= node + 1
      && (Populated(d.nodes) && node <= |d.nodes| ==> Populated(e.nodes))
      && (forall i :: 0 <= i < |e.nodes| && i != node ==>
          e.nodes[i] == if i < |d.nodes| then d.nodes[i] else EMPTY_NODE)
  {
    var rest := data[from - pos..];
    var allocs, copied :| Succeeds(d, from, rest, allocs, copied, e, to - from);
    NextNode(d.quantum, d.qset, from, to - from);
    var a := AddrOf(d.quantum, d.qset, from);
    assert e.nodes == Stored(d, a, rest[..to - from]).nodes;
    if Populated(d.nodes) && a.node <= |d.nodes| {
      SkippingUnpopulates(d, a, rest[..to - from]);
    }
  }

  lemma {:induction false} CopiesInNodes(ds: seq<Dev>, cuts: seq<nat>, pos: nat, data: seq<byte>, i: nat)
    requires CopiesIn(ds, cuts, pos, data) && i < |ds| && Populated(ds[0].nodes)
    ensures var d := ds[0];
      var first := AddrOf(d.quantum, d.qset, pos).node;
      && first <= AddrOf(d.quantum, d.qset, cuts[i]).node
      && (first <= |d.nodes| ==> Populated(ds[i].nodes) && AddrOf(d.quantum, d.qset, cuts[i]).node <= |ds[i].nodes|)
      && (first > |d.nodes| && i > 0 ==> |d.nodes| < |ds[i].nodes| && ds[i].nodes[|d.nodes|] == EMPTY_NODE)
      && (i == 0 ==> cuts[i] == pos)
  {
    if 0 < i {
      CopiesInNodes(ds, cuts, pos, data, i - 1);
      CopiesStaySound(ds, cuts, pos, data, i - 1);
      CopyCallNodes(ds[i - 1], cuts[i - 1], pos, data, ds[i - 1 + 1], cuts[i - 1 + 1]);
    }
  }

  /**
   After a range has been copied in, the next reset ends exactly if the range began in a node that was there
   or was the next one. Copying from the start of the device, or from its end on, is always all right.
   */
  lemma CopiedInThenReset(ds: seq<Dev>, cuts: seq<nat>, pos: nat, data: seq<byte>)
    requires CopiesIn(ds, cuts, pos, data) && Populated(ds[0].nodes) && data != []
    ensures Returns(ds[|ds| - 1].nodes) <==> AddrOf(ds[0].quantum, ds[0].qset, pos).node <= |ds[0].nodes|
    ensures pos == 0 || pos == ds[0].size ==> Returns(ds[|ds| - 1].nodes)
  {
    var d, last := ds[0], |ds| - 1;
    CopiesInNodes(ds, cuts, pos, data, last);
    ResetEnds(ds[last].nodes);
    NodeNumbers(d.quantum, d.qset, pos);
    if 0 < d.size && pos == d.size {
      NextNode(d.quantum, d.qset, d.size - 1, 1);
    }
  }

  // ---- ioctl ----

  datatype Globals = Globals(quantum: int, qset: int)
  datatype Param = Quantum | Qset

  /** `user` is what `__get_user` finds at the address, if readable; a failed `__get_user` yields 0. */
  datatype Cmd =
    | Reset
    | Set(p: Param, user: Option<int>)
    | Tell(p: Param, arg: int)
    | Get(p: Param, putOk: bool)
    | Query(p: Param)
    | Exchange(p: Param, user: Option<int>, putOk: bool)
    | Shift(p: Param, arg: int)

  const SCULL_QUANTUM := 4096
  const SCULL_QSET := 1000
  const EFAULT := 14
  const EPERM := 1
  const EINVAL := 22

  function Put(g: Globals, p: Param, v: int): Globals {
    if p.Quantum? then g.(quantum := v) else g.(qset := v)
  }

  function Of(g: Globals, p: Param): int {
    if p.Quantum? then g.quantum else g.qset
  }

  /** `scull_ioctl`: new globals, return value. The shift of the qset works on the quantum, as the source does. */
  function Ioctl(g: Globals, cmd: Cmd, admin: bool): (r: (Globals, int))
    ensures !admin && r.0 != g ==> cmd.Reset?
    ensures r.0.qset != g.qset ==> cmd.Reset? || ((cmd.Set? || cmd.Tell? || cmd.Exchange?) && cmd.p.Qset?)
    ensures cmd.Shift? && r.0 != g ==> r == (Globals(cmd.arg, g.qset), g.quantum)
  {
    if cmd.Reset? then (Globals(SCULL_QUANTUM, SCULL_QSET), -EINVAL)
    else if cmd.Get? then (g, if cmd.putOk then 0 else -EFAULT)
    else if cmd.Query? then (g, Of(g, cmd.p))
    else if !admin then (g, -EPERM)
    else if cmd.Tell? then (Put(g, cmd.p, cmd.arg), -EINVAL)
    else if cmd.Shift? then (g.(quantum := cmd.arg), g.quantum)
    else if cmd.user.None? then (Put(g, cmd.p, 0), -EFAULT)
    else (Put(g, cmd.p, cmd.user.value), if cmd.Exchange? && !cmd.putOk then -EFAULT else 0)
  }

  /** What the commands store can be asked back, and what they return tells how it went. */
  lemma IoctlLaw(g: Globals, p: Param, v: int, putOk: bool, admin: bool)
    ensures forall cmd | cmd in {Set(p, Some(v)), Tell(p, v), Exchange(p, Some(v), putOk)} ::
      var r := Ioctl(g, cmd, true);
      && Ioctl(r.0, Query(p), admin) == (r.0, v)
      && (forall o | o != p :: Of(r.0, o) == Of(g, o))
      && r.1 == if cmd.Tell? then -EINVAL else if cmd.Set? || putOk then 0 else -EFAULT
    ensures forall cmd | cmd in {Set(p, None), Exchange(p, None, putOk)} ::
      var r := Ioctl(g, cmd, true);
      Ioctl(r.0, Query(p), admin) == (r.0, 0) && r.1 == -EFAULT
    ensures var r := Ioctl(g, Shift(p, v), true);
      Ioctl(r.0, Query(Quantum), admin) == (r.0, v) && Ioctl(r.0, Shift(p, r.1), true) == (g, v)
    ensures forall cmd | cmd in {Set(p, Some(v)), Tell(p, v), Exchange(p, Some(v), putOk), Shift(p, v)} ::
      Ioctl(g, cmd, false) == (g, -EPERM)
    ensures Ioctl(g, Get(p, putOk), admin) == (g, if putOk then 0 else -EFAULT)
    ensures var r := Ioctl(g, Cmd.Reset, admin);
      r.1 == -EINVAL && Ioctl(r.0, Query(Quantum), admin).1 == 4096 && Ioctl(r.0, Query(Qset), admin).1 == 1000
  {
  }

  // ---- Serial runs ----

  datatype World = World(dev: Dev, globals: Globals)

  datatype Step =
    | Command(cmd: Cmd, admin: bool)
    | OpenForWriting
    | Read(pos: nat, count: nat, allocs: nat, copied: nat)
    | Write(pos: nat, data: seq<byte>, allocs: nat, copied: nat)

  /** A write divides by both sizes; a reset returns only when every node has an array. */
  ghost predicate Enabled(w: World, step: Step) {
    match step
    case Command(_, _) => true
    case OpenForWriting => Populated(w.dev.nodes)
    case Read(_, _, _, _) => true
    case Write(_, _, _, _) => 0 < w.dev.quantum && 0 < w.dev.qset
  }

  ghost function Apply(w: World, step: Step): World
    requires Sound(w.dev) && Enabled(w, step)
  {
    match step
    case Command(cmd, admin) => w.(globals := Ioctl(w.globals, cmd, admin).0)
    case OpenForWriting => w.(dev := Dev([], w.globals.quantum, w.globals.qset, 0))
    case Read(pos, count, allocs, copied) => w.(dev := ReadDev(w.dev, pos, count, allocs, copied).0)
    case Write(pos, data, allocs, copied) => w.(dev := WriteDev(w.dev, pos, data, allocs, copied).0)
  }

  lemma StepKeepsSound(w: World, step: Step)
    requires Sound(w.dev) && Enabled(w, step)
    ensures var v := Apply(w, step);
      && Sound(v.dev)
      && (!step.OpenForWriting? ==> v.dev.quantum == w.dev.quantum && v.dev.qset == w.dev.qset)
      && (step.OpenForWriting? ==>
          && v.dev.nodes == [] && v.dev.size == 0
          && v.dev.quantum == w.globals.quantum && v.dev.qset == w.globals.qset)
  {
    match step
    case Command(_, _) =>
    case OpenForWriting =>
    case Read(pos, count, allocs, copied) => ReadLaw(w.dev, pos, count, allocs, copied);
    case Write(pos, data, allocs, copied) =>
      match WriteDev(w.dev, pos, data, allocs, copied).1
      case NoMemory => NoMemoryKeeps(w.dev, pos, data, allocs, copied);
      case BadAddress => BadAddressKeeps(w.dev, pos, data, allocs, copied);
      case Wrote(_) => WroteIsWrite(w.dev, pos, data, allocs, copied);
  }

  /** The locked sections of a serial run: only a write or a reset changes the device, a write as a write does. */
  lemma StepLaw(w: World, step: Step)
    requires Sound(w.dev) && Enabled(w, step)
    ensures var v := Apply(w, step);
      && (step.Command? || step.Read? ==> v.dev == w.dev)
      && (!step.Command? ==> v.globals == w.globals)
      && (step.Write? ==>
          var r := WriteDev(w.dev, step.pos, step.data, step.allocs, step.copied).1;
          && (r.Wrote? ==> OneWrite(ContentsOf(w.dev), MapOf(w.dev.quantum, w.dev.qset), step.pos, step.data,
                             step.pos, step.pos + Min(|step.data|, Left(w.dev, step.pos)), ContentsOf(v.dev)))
          && (r.NoMemory? ==> Keeps(w.dev, v.dev) && v.dev.size == w.dev.size))
  {
    if step.Read? {
      ReadLaw(w.dev, step.pos, step.count, step.allocs, step.copied);
    } else if step.Write? {
      var r := WriteDev(w.dev, step.pos, step.data, step.allocs, step.copied).1;
      if r.Wrote? {
        WroteIsWrite(w.dev, step.pos, step.data, step.allocs, step.copied);
      } else if r.NoMemory? {
        NoMemoryKeeps(w.dev, step.pos, step.data, step.allocs, step.copied);
      }
    }
  }

  /** An open for writing returns exactly if the freeing loop of its reset does. */
  lemma OpenReturnsIff(w: World)
    ensures Enabled(w, OpenForWriting) <==> Returns(w.dev.nodes)
  {
    ResetEnds(w.dev.nodes);
  }

  ghost function Run(w: World, trace: seq<Step>): (r: Option<World>)
    requires Sound(w.dev)
    ensures r.Some? ==> Sound(r.value.dev)
    decreases |trace|
  {
    if trace == [] then Some(w)
    else if !Enabled(w, trace[0]) then None
    else
      StepKeepsSound(w, trace[0]);
      Run(Apply(w, trace[0]), trace[1..])
  }

  /** The sizes that count after a run: those the globals had at the last reset, or the ones of the beginning. */
  function Adopted(sizes: Globals, g: Globals, trace: seq<Step>): Globals
    decreases |trace|
  {
    if trace == [] then sizes
    else match trace[0]
      case Command(cmd, admin) => Adopted(sizes, Ioctl(g, cmd, admin).0, trace[1..])
      case OpenForWriting => Adopted(g, g, trace[1..])
      case _ => Adopted(sizes, g, trace[1..])
  }

  /**
   Whatever ioctls come in between, every array and quantum has the sizes that the globals had at the last
   reset; without a reset the recorded sizes never change.
   */
  lemma {:induction false} GeometryIsStable(w: World, trace: seq<Step>)
    requires Sound(w.dev) && Run(w, trace).Some?
    ensures var v := Run(w, trace).value;
      && Geometry(v.dev)
      && Globals(v.dev.quantum, v.dev.qset) == Adopted(Globals(w.dev.quantum, w.dev.qset), w.globals, trace)
      && (OpenForWriting !in trace ==> v.dev.quantum == w.dev.quantum && v.dev.qset == w.dev.qset)
    decreases |trace|
  {
    if trace != [] {
      StepKeepsSound(w, trace[0]);
      GeometryIsStable(Apply(w, trace[0]), trace[1..]);
    }
  }

  // ---- The device ----

  class ScullDev {
    var nodes: seq<Node>
    var quantum: int
    var qset: int
    var size: nat

    constructor (quantum: int, qset: int)
      ensures Valid() && State() == Dev([], quantum, qset, 0)
    {
      nodes, this.quantum, this.qset, size := [], quantum, qset, 0;
    }

    function State(): Dev
      reads this
    {
      Dev(nodes, quantum, qset, size)
    }

    ghost predicate Valid()
      reads this
    {
      Sound(State())
    }

    /**
     The list position of the node for `item`; `allocs` allocations succeed before one fails, `left`
     of them are left.
     */
    method FindItem(item: nat, allocs: nat) returns (curr: Option<nat>, left: nat)
      modifies this`nodes
      ensures State() == Found(old(State()), NodeOf(item), allocs)
      ensures curr == if Missing(old(nodes), NodeOf(item)) <= allocs then Some(NodeOf(item)) else None
      // the number of links followed: none for items 0 and 1, one more for each further item
      ensures curr.Some? ==> curr.value == (if item <= 1 then 0 else item - 1) < |nodes|
      ensures curr.None? ==> |nodes| == |old(nodes)| + allocs <= (if item <= 1 then 0 else item - 1)
      ensures old(nodes) <= nodes && forall i :: |old(nodes)| <= i < |nodes| ==> nodes[i] == EMPTY_NODE
      ensures curr.Some? ==>
        State() == Grown(old(State()), NodeOf(item)) && left == allocs - Missing(old(nodes), NodeOf(item))
    {
      left := allocs;
      var n: int := item;
      assert old(nodes) + Blank(0) == old(nodes);
      if nodes == [] {
        if left == 0 {
          return None, left;
        }
        nodes, left := [EMPTY_NODE], left - 1;
      }
      var at: nat := 0;
      n := n - 1;
      while n > 0
        invariant at + (if n > 0 then n else 0) == NodeOf(item)
        invariant at < |nodes| && left <= allocs
        invariant nodes == old(nodes) + Blank(allocs - left)
        invariant left < allocs ==> at == |nodes| - 1
        decreases n
      {
        if at + 1 == |nodes| {
          if left == 0 {
            return None, left;
          }
          nodes, left := nodes + [EMPTY_NODE], left - 1;
        }
        at := at + 1;
        n := n - 1;
      }
      return Some(at), left;
    }

    /** Which item holds offset `pos`, which of its quanta, and where in it. */
    method Locate(pos: nat) returns (item: nat, s: nat, q: nat)
      requires 0 < quantum && 0 < qset
      ensures AddrOf(quantum, qset, pos) == Addr(NodeOf(item), s, q)
    {
      item := pos / ItemSize(quantum, qset);
      var rest := pos % ItemSize(quantum, qset);
      s, q := rest / quantum, rest % quantum;
    }

    method Read(pos: nat, count: nat, allocs: nat, copied: nat) returns (r: ReadResult, next: nat)
      requires Valid()
      modifies this`nodes
      ensures Valid() && nodes == old(nodes)
      ensures (State(), r) == ReadDev(old(State()), pos, count, allocs, copied)
      ensures next == pos + if r.Data? then |r.bytes| else 0
    {
      ReadLaw(State(), pos, count, allocs, copied);
      if pos >= size {
        return Data([]), pos;
      }
      InsideNode(State(), pos);
      var n := Min(count, size - pos);
      var item, s, q := Locate(pos);
      var ptr, _ := FindItem(item, allocs);
      if ptr.None? || nodes[ptr.value].data.None? || nodes[ptr.value].data.value[s].None? {
        return Data([]), pos;
      }
      n := Min(n, quantum - q);
      if copied < n {
        return Fault, pos;
      }
      return Data(nodes[ptr.value].data.value[s].value[q..q + n]), pos + n;
    }

    /** Allocates what is missing of the array of node `at` and of its quantum `s`. */
    method Provide(at: nat, s: nat, allocs: nat) returns (ok: bool)
      requires at < |nodes| && Geometry(State()) && s < qset && 0 <= quantum
      modifies this`nodes
      ensures var d := old(State());
        var slots := ArrayOf(d, at);
        var forArray := if d.nodes[at].data.None? then 1 else 0;
        && (ok <==> forArray + (if slots[s].None? then 1 else 0) <= allocs)
        && (ok ==> nodes == d.nodes[at := Node(Some(slots[s := Some(QuantumOf(slots, s, quantum))]))])
        && (!ok ==> nodes == if allocs == 0 then d.nodes else d.nodes[at := Node(Some(slots))])
    {
      var left := allocs;
      assert nodes[at := nodes[at]] == nodes;
      if nodes[at].data.None? {
        if left == 0 {
          return false;
        }
        nodes, left := nodes[at := Node(Some(seq(qset, _ => None)))], left - 1;
      }
      var slots := nodes[at].data.value;
      assert slots[s := slots[s]] == slots;
      if slots[s].None? {
        if left == 0 {
          return false;
        }
        nodes := nodes[at := Node(Some(slots[s := Some(seq(quantum, _ => 0))]))];
      }
      ok := true;
    }

    method Write(pos: nat, data: seq<byte>, allocs: nat, copied: nat) returns (r: WriteResult, next: nat)
      requires Valid() && 0 < quantum && 0 < qset
      modifies this
      ensures Valid()
      ensures (State(), r) == WriteDev(old(State()), pos, data, allocs, copied)
      ensures next == pos + if r.Wrote? then r.count else 0
    {
      var item, s, q := Locate(pos);
      ghost var d := State();
      StepKeepsSound(World(d, Globals(0, 0)), Step.Write(pos, data, allocs, copied));
      var ptr, left := FindItem(item, allocs);
      if ptr.None? {
        return NoMemory, pos;
      }
      GrownKeeps(d, NodeOf(item));
      var at := ptr.value;
      var ok := Provide(at, s, left);
      if !ok {
        return NoMemory, pos;
      }
      var n := Min(|data|, quantum - q);
      StoredInTwoSteps(d, Addr(at, s, q), data[..Min(n, copied)], nodes);
      CopyIn(at, s, q, data[..Min(n, copied)]);
      if copied < n {
        return BadAddress, pos;
      }
      if size < pos + n {
        size := pos + n;
      }
      return Wrote(n), pos + n;
    }

    /** `copy_from_user` into quantum `s` of node `at`. */
    method CopyIn(at: nat, s: nat, q: nat, data: seq<byte>)
      requires at < |nodes| && nodes[at].data.Some? && s < |nodes[at].data.value| && nodes[at].data.value[s].Some?
      requires q + |data| <= |nodes[at].data.value[s].value|
      modifies this`nodes
      ensures var slots := old(nodes)[at].data.value;
        nodes == old(nodes)[at := Node(Some(slots[s := Some(Splice(slots[s].value, q, data))]))]
    {
      var slots := nodes[at].data.value;
      nodes := nodes[at := Node(Some(slots[s := Some(Splice(slots[s].value, q, data))]))];
    }

    /**
     The freeing loop of `scull_dev_reset`, watched for `patience` passes; `curr` is its pointer then and
     `freed` are the blocks given to `kfree`.
     */
    method FreeNodes(patience: nat) returns (curr: Pointer, freed: seq<Block>)
      requires Valid()
      ensures curr == Null <==> Populated(nodes) && |nodes| <= patience
      ensures exists k: nat :: k <= patience && curr == Passes(nodes, k).0 && (curr.ToNode? ==> k == patience)
      ensures forall b :: b in freed ==> Owned(nodes, b) && !b.ArrayBlock?
      ensures curr == Null ==> forall b :: Owned(nodes, b) && !b.ArrayBlock? ==> b in freed
      ensures forall i, j :: 0 <= i < j < |freed| ==> freed[i] != freed[j]
    {
      freed := [];
      curr := NodeAt(nodes, 0);
      var next := Unset;
      var k: nat := 0;
      ghost var upto: nat := 0;   // nodes freed so far
      while curr.ToNode? && k < patience
        invariant k <= patience && (curr, next) == Passes(nodes, k)
        invariant upto <= |nodes| && upto <= k && forall i :: 0 <= i < upto ==> nodes[i].data.Some?
        invariant Populated(nodes) ==> upto == k
        invariant next == if upto == 0 then Unset else NodeAt(nodes, upto)
        invariant curr == NodeAt(nodes, upto) || (curr == Unset && upto < |nodes| && nodes[upto].data.None?)
        invariant forall b :: b in freed <==> Owned(nodes, b) && !b.ArrayBlock? && b.i < upto
        invariant forall i, j :: 0 <= i < j < |freed| ==> freed[i] != freed[j]
        decreases patience - k
      {
        if nodes[curr.i].data.Some? {
          next := NodeAt(nodes, curr.i + 1);
          freed := FreeNode(curr.i, freed);
          upto := upto + 1;
        }
        curr := next;
        k := k + 1;
      }
    }

    /**
     `scull_dev_reset`, its freeing loop watched for `patience` passes. It ends on a populated list only, and
     then every node and every quantum has been freed once and no pointer array at all. Otherwise it is still
     in the loop, or at a pointer never set.
     */
    method Reset(globals: Globals, patience: nat) returns (ended: bool, freed: seq<Block>)
      requires Valid()
      modifies this
      ensures ended <==> Populated(old(nodes)) && |old(nodes)| <= patience
      ensures if ended then Valid() && State() == Dev([], globals.quantum, globals.qset, 0) else unchanged(this)
      ensures forall b :: b in freed ==> Owned(old(nodes), b) && !b.ArrayBlock?
      ensures ended ==> forall b :: Owned(old(nodes), b) && !b.ArrayBlock? ==> b in freed
      ensures forall i, j :: 0 <= i < j < |freed| ==> freed[i] != freed[j]
    {
      var curr;
      curr, freed := FreeNodes(patience);
      ended := curr == Null;
      if ended {
        size := 0;
        quantum, qset := globals.quantum, globals.qset;
        nodes := [];
      }
    }

    /** Frees the quanta of node `at`, then the node; its successor has been read before. */
    method FreeNode(at: nat, before: seq<Block>) returns (freed: seq<Block>)
      requires Valid() && at < |nodes| && nodes[at].data.Some?
      requires forall b :: b in before ==> b.i < at
      requires forall i, j :: 0 <= i < j < |before| ==> before[i] != before[j]
      ensures forall b :: b in freed <==> b in before || (b.i == at && Owned(nodes, b) && !b.ArrayBlock?)
      ensures forall i, j :: 0 <= i < j < |freed| ==> freed[i] != freed[j]
    {
      freed := FreeQuanta(at, before);
      freed := freed + [NodeBlock(at)];
    }

    /** The inner loop: frees the quanta of node `at`. */
    method FreeQuanta(at: nat, before: seq<Block>) returns (freed: seq<Block>)
      requires Valid() && at < |nodes| && nodes[at].data.Some?
      requires forall b :: b in before ==> b.i < at
      requires forall i, j :: 0 <= i < j < |before| ==> before[i] != before[j]
      ensures forall b :: b in freed <==> b in before || (b.QuantumBlock? && b.i == at && Owned(nodes, b))
      ensures forall i, j :: 0 <= i < j < |freed| ==> freed[i] != freed[j]
    {
      freed := before;
      var slots := nodes[at].data.value;
      for s := 0 to qset
        invariant forall b :: b in freed <==>
          b in before || (b.QuantumBlock? && b.i == at && b.s < s && Owned(nodes, b))
        invariant forall i, j :: 0 <= i < j < |freed| ==> freed[i] != freed[j]
      {
        if slots[s].Some? {
          freed := freed + [QuantumBlock(at, s)];
        }
      }
    }
  }
}
