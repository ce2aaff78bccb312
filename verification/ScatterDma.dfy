/**
 Host-side scatter/gather of the EDU driver: cutting a user range into page
 segments, one DMA per mapped segment through the single device window, and
 what is pinned and allocated on every way out.
 */
module ScatterDma {
  import opened Common

  const PAGE_SIZE := 4096
  const DMA_BUF_SIZE := 4096
  const WORD := 0x1_0000_0000_0000_0000
  const EFAULT := 14
  const ENOMEM := 12
  const EBUSY := 16
  const EINVAL := 22
  const ETIMEDOUT := 110
  const ERESTARTSYS := 512

  // ---- Pages and segments ----

  /** The number of pages the code computes, in 64-bit arithmetic. */
  function NrPages(start: nat, length: nat): (n: nat)
    requires start < WORD
    ensures n > 0
  {
    var firstPage := start - start % PAGE_SIZE;
    var lastByte := (start + length - 1) % WORD;
    var lastPage := lastByte - lastByte % PAGE_SIZE;
    (lastPage - firstPage) % WORD / PAGE_SIZE + 1
  }

  /** The pages reach from the page of the first byte exactly to the page of the last, even when the address wraps. */
  lemma PagesCover(start: nat, length: nat)
    requires start < WORD && length < 0x1_0000_0000
    ensures var end, n := start % PAGE_SIZE + length, NrPages(start, length);
      && end <= n * PAGE_SIZE
      && (0 < length ==> (n - 1) * PAGE_SIZE < end)
      && (length == 0 ==> n == if start % PAGE_SIZE == 0 then WORD / PAGE_SIZE else 1)
  {
    var a, f, last := start / PAGE_SIZE, start % PAGE_SIZE, start + length - 1;
    var turn := if last < 0 then -1 else if last < WORD then 0 else 1;
    var lastByte := last - turn * WORD;
    assert lastByte == last % WORD;
    var b := lastByte / PAGE_SIZE;
    PagesBetween(a, b);
    assert start == a * PAGE_SIZE + f && lastByte == b * PAGE_SIZE + lastByte % PAGE_SIZE;
  }

  /** From page `a` to page `b`, around the address space if `b` is lower. */
  lemma PagesBetween(a: nat, b: nat)
    requires a < WORD / PAGE_SIZE && b < WORD / PAGE_SIZE
    ensures (b * PAGE_SIZE - a * PAGE_SIZE) % WORD / PAGE_SIZE == if a <= b then b - a else b - a + WORD / PAGE_SIZE
  {
    var d := b * PAGE_SIZE - a * PAGE_SIZE;
    assert d % WORD == if a <= b then d else d + WORD;
  }

  /** One entry of the scatterlist: a pinned page, an offset in it, a length. */
  datatype Seg = Seg(page: nat, off: nat, len: nat) {
    /** Its place, counted from the start of the first page. */
    function Place(): nat {
      page * PAGE_SIZE + off
    }

    function End(): nat {
      Place() + len
    }
  }

  /** Segments in order, one a page, none empty, each starting where the one before ends, from `first` to `end`. */
  ghost predicate Partition(segs: seq<Seg>, first: nat, end: nat) {
    && (forall i :: 0 <= i < |segs| ==> segs[i].page == i && 0 < segs[i].len && segs[i].off + segs[i].len <= PAGE_SIZE)
    && (forall i :: 0 < i < |segs| ==> segs[i].Place() == segs[i - 1].End())
    && (if segs == [] then first == end else segs[0].Place() == first && segs[|segs| - 1].End() == end)
  }

  /** Every byte of the range lies in exactly one segment, the one of its page. */
  lemma ExactlyOneSegment(segs: seq<Seg>, first: nat, end: nat, p: nat)
    requires Partition(segs, first, end) && first <= p < end
    ensures p / PAGE_SIZE < |segs|
    ensures forall i :: 0 <= i < |segs| ==> (segs[i].Place() <= p < segs[i].End() <==> i == p / PAGE_SIZE)
  {
    var k := p / PAGE_SIZE;
    var last := segs[|segs| - 1];
    assert last.page == |segs| - 1 && p < last.End() <= |segs| * PAGE_SIZE;
    if 0 < k {
      assert segs[k - 1].End() <= k * PAGE_SIZE;
    }
    if k + 1 < |segs| {
      assert segs[k + 1].Place() == segs[k].End() >= (k + 1) * PAGE_SIZE;
    }
    forall i | 0 <= i < |segs| ensures segs[i].Place() <= p < segs[i].End() <==> i == k {
      assert i * PAGE_SIZE <= segs[i].Place() < segs[i].End() <= (i + 1) * PAGE_SIZE;
    }
  }

  lemma OneMoreEntry(segs: seq<Seg>, first: nat, end: nat, seg: Seg)
    requires Partition(segs, first, end) && seg.Place() == end
    requires seg.page == |segs| && 0 < seg.len && seg.off + seg.len <= PAGE_SIZE
    ensures Partition(segs + [seg], first, seg.End())
  {
  }

  /** The loop that fills the scatterlist; nothing ever remains, so the error branch after it is dead. */
  method BuildSegments(start: nat, length: nat, pinned: nat) returns (segs: seq<Seg>, remaining: nat)
    requires start < WORD && length < 0x1_0000_0000 && pinned == NrPages(start, length)
    ensures remaining == 0
    ensures Partition(segs, start % PAGE_SIZE, start % PAGE_SIZE + length)
    ensures |segs| == if length == 0 then 0 else pinned
  {
    PagesCover(start, length);
    segs, remaining := [], length;
    var offset: nat := start % PAGE_SIZE;
    var i := 0;
    while i < pinned && remaining > 0
      invariant i == |segs| <= pinned && remaining <= length
      invariant Partition(segs, start % PAGE_SIZE, start % PAGE_SIZE + (length - remaining))
      invariant offset < PAGE_SIZE
      invariant 0 < remaining ==> i * PAGE_SIZE + offset == start % PAGE_SIZE + (length - remaining)
      decreases pinned - i
    {
      var len := Min(PAGE_SIZE - offset, remaining);
      OneMoreEntry(segs, start % PAGE_SIZE, start % PAGE_SIZE + (length - remaining), Seg(i, offset, len));
      segs := segs + [Seg(i, offset, len)];
      offset := 0;
      remaining := remaining - len;
      i := i + 1;
    }
  }

  // ---- Mapped segments ----

  /** `dma_map_sg` may merge neighbours: the mapped segments start at these entries of the list. */
  ghost predicate Merges(groups: seq<nat>, n: nat) {
    && 0 < |groups| && groups[0] == 0 && groups[|groups| - 1] == n
    && forall i, j :: 0 <= i < j < |groups| ==> groups[i] < groups[j]
  }

  /** Where entry `i` starts in the user range, the end of the range for the end of the list. */
  function Bound(segs: seq<Seg>, length: nat, i: nat): int {
    if i < |segs| then segs[i].Place() - segs[0].Place() else length
  }

  /** All segments but the first start a page, so the cuts lie on page boundaries of the user range. */
  lemma BoundIsPageStart(segs: seq<Seg>, first: nat, length: nat, i: nat)
    requires Partition(segs, first, first + length) && i <= |segs| && segs != []
    ensures Bound(segs, length, i) == if i == 0 then 0 else Min(i * PAGE_SIZE - first, length)
  {
    if 0 < i < |segs| {
      assert segs[i].Place() == segs[i - 1].End() && segs[i].page == i;
      EntriesInside(segs, first, length, i);
    } else if i == |segs| {
      assert segs[i - 1].page == i - 1;
    }
  }

  /** The user range cut into mapped segments. */
  ghost predicate Cuts(cuts: seq<nat>, length: nat) {
    && 0 < |cuts| && cuts[0] == 0 && cuts[|cuts| - 1] == length
    && forall i, j :: 0 <= i < j < |cuts| ==> cuts[i] < cuts[j]
  }

  lemma {:induction false} BoundsGrow(segs: seq<Seg>, first: nat, length: nat, i: nat, k: nat)
    requires Partition(segs, first, first + length) && i <= k <= |segs|
    ensures 0 <= Bound(segs, length, i) <= Bound(segs, length, k) <= length
    ensures i < k ==> Bound(segs, length, i) < Bound(segs, length, k)
    decreases k - i, |segs| - k, i
  {
    if i < k {
      BoundsGrow(segs, first, length, i, k - 1);
      assert k < |segs| ==> segs[k].Place() == segs[k - 1].End();
    } else if k < |segs| {
      EntriesInside(segs, first, length, k);
    }
  }

  lemma {:induction false} EntriesInside(segs: seq<Seg>, first: nat, length: nat, k: nat)
    requires Partition(segs, first, first + length) && k < |segs|
    ensures first <= segs[k].Place() <= first + length
  {
    assert segs[0].Place() == first;
    if 0 < k {
      assert segs[k].page == k && segs[0].off < PAGE_SIZE;
    }
    var last := segs[|segs| - 1];
    if k < |segs| - 1 {
      assert last.page == |segs| - 1 && segs[k].Place() < last.End();
    }
  }

  /** Mapped segments cut the user range whatever was merged. */
  lemma MergedCuts(segs: seq<Seg>, first: nat, length: nat, groups: seq<nat>, cuts: seq<nat>)
    requires 0 < length && Partition(segs, first, first + length) && Merges(groups, |segs|)
    requires |cuts| == |groups| && forall j :: 0 <= j < |cuts| ==> cuts[j] == Bound(segs, length, groups[j])
    ensures Cuts(cuts, length)
  {
    var last := |groups| - 1;
    forall i, j | 0 <= i < j < |cuts| ensures cuts[i] < cuts[j] {
      assert j < last ==> groups[j] < groups[last];
      BoundsGrow(segs, first, length, groups[i], groups[j]);
    }
  }

  /** A segment that was not merged passes the size check of the transfer. */
  lemma UnmergedFits(segs: seq<Seg>, first: nat, length: nat, i: nat)
    requires Partition(segs, first, first + length) && i < |segs|
    ensures 0 < Bound(segs, length, i + 1) - Bound(segs, length, i) <= DMA_BUF_SIZE
  {
    if i + 1 < |segs| {
      assert segs[i + 1].Place() == segs[i].End();
    }
  }

  // ---- What the transfers move ----

  datatype Dir = RamToDev | DevToRam | Other

  /** What becomes of a transfer: the lock wait is interrupted, it completes, or it is late, some bytes copied. */
  datatype Outcome = Interrupted | Complete | Late(copied: nat)

  /** Mapped segment `j` lies in the user range and is no longer than the window. */
  predicate PieceOk(cuts: seq<nat>, j: nat, user: nat, window: nat) {
    j + 1 < |cuts| && cuts[j] <= cuts[j + 1] <= user && cuts[j + 1] - cuts[j] <= window
  }

  /** The window after `k` transfers to the device, each starting at its first byte. */
  function Overlaid(window: seq<byte>, user: seq<byte>, cuts: seq<nat>, k: nat): (r: seq<byte>)
    requires forall j: nat :: j < k ==> PieceOk(cuts, j, |user|, |window|)
    ensures |r| == |window|
  {
    if k == 0 then window
    else
      assert PieceOk(cuts, k - 1, |user|, |window|);
      Splice(Overlaid(window, user, cuts, k - 1), 0, user[cuts[k - 1]..cuts[k]])
  }

  function Size(cuts: seq<nat>, j: nat): int
    requires j + 1 < |cuts|
  {
    var from: int, to: int := cuts[j], cuts[j + 1];
    to - from
  }

  /** A byte of the window comes from the last segment long enough to reach it, and from before if there is none. */
  lemma {:induction false} LastReachingSegmentWins(window: seq<byte>, user: seq<byte>, cuts: seq<nat>,
                                                   k: nat, b: nat, from: nat)
    requires from <= k < |cuts| && b < |window|
    requires forall j: nat :: j < k ==> PieceOk(cuts, j, |user|, |window|)
    requires forall j: nat :: from <= j < k ==> Size(cuts, j) <= b
    requires 0 < from ==> b < Size(cuts, from - 1)
    ensures var final := Overlaid(window, user, cuts, k);
      if from == 0 then final[b] == window[b]
      else cuts[from - 1] + b < |user| && final[b] == user[cuts[from - 1] + b]
    decreases k
  {
    if 0 < k {
      assert PieceOk(cuts, k - 1, |user|, |window|);
      assert from < k ==> Size(cuts, k - 1) <= b;
      if from < k {
        LastReachingSegmentWins(window, user, cuts, k - 1, b, from);
      }
    }
  }

  /** Mapped segment `j` holds the prefix of the window of its own length. */
  ghost predicate HoldsPrefix(user: seq<byte>, window: seq<byte>, cuts: seq<nat>, j: nat) {
    PieceOk(cuts, j, |user|, |window|) && user[cuts[j]..cuts[j + 1]] == window[..cuts[j + 1] - cuts[j]]
  }

  /**
   What a transfer returns; too long, interrupted, busy and a wrong direction are noticed in this
   order, before anything moves.
   */
  function Result(size: int, busy: bool, outcome: Outcome, dir: Dir): (ret: int)
    ensures ret == 0 <==> size <= DMA_BUF_SIZE && !busy && outcome.Complete? && !dir.Other?
    ensures ret == -ERESTARTSYS <==> size <= DMA_BUF_SIZE && outcome.Interrupted?
    ensures ret == -EBUSY <==> size <= DMA_BUF_SIZE && busy && !outcome.Interrupted?
    ensures ret == -ETIMEDOUT <==> size <= DMA_BUF_SIZE && !busy && outcome.Late? && !dir.Other?
    ensures ret in {0, -ERESTARTSYS, -EBUSY, -ETIMEDOUT, -EINVAL}
  {
    if size > DMA_BUF_SIZE then -EINVAL
    else if outcome.Interrupted? then -ERESTARTSYS
    else if busy then -EBUSY
    else if dir.Other? then -EINVAL
    else if outcome.Late? then -ETIMEDOUT
    else 0
  }

  /** The first `n` transfers succeed. */
  ghost predicate AllSucceed(cuts: seq<nat>, outcomes: seq<Outcome>, busy: bool, dir: Dir, n: nat)
    requires n <= |outcomes| < |cuts|
  {
    forall j :: 0 <= j < n ==> Result(Size(cuts, j), busy, outcomes[j], dir) == 0
  }

  /** User range and window, `u0` and `w0` at first, after `k` transfers. */
  ghost predicate Moved(dir: Dir, u0: seq<byte>, w0: seq<byte>, u: seq<byte>, w: seq<byte>, cuts: seq<nat>, k: nat) {
    && |u| == |u0| && |w| == |w0|
    && (forall j: nat :: j < k ==> PieceOk(cuts, j, |u|, |w|))
    && (dir.DevToRam? ==> w == w0 && forall j: nat :: j < k ==> HoldsPrefix(u, w, cuts, j))
    && (dir.RamToDev? ==> u == u0 && w == Overlaid(w0, u0, cuts, k))
  }

  lemma MoveOne(dir: Dir, u0: seq<byte>, w0: seq<byte>, u: seq<byte>, w: seq<byte>,
                u': seq<byte>, w': seq<byte>, cuts: seq<nat>, k: nat)
    requires Moved(dir, u0, w0, u, w, cuts, k) && Cuts(cuts, |u|) && PieceOk(cuts, k, |u|, |w|)
    requires u' == if dir.DevToRam? then Splice(u, cuts[k], w[..Size(cuts, k)]) else u
    requires w' == if dir.RamToDev? then Splice(w, 0, u[cuts[k]..cuts[k + 1]]) else w
    ensures Moved(dir, u0, w0, u', w', cuts, k + 1)
  {
    if dir.DevToRam? {
      PrefixesStay(u, w, cuts, k);
    }
  }

  /** Transfer `j` is the first to fail, with `ret`. */
  ghost predicate FirstFailure(cuts: seq<nat>, outcomes: seq<Outcome>, busy: bool, dir: Dir, j: nat, ret: int)
    requires |outcomes| < |cuts|
  {
    && j < |outcomes| && AllSucceed(cuts, outcomes, busy, dir, j)
    && ret == Result(Size(cuts, j), busy, outcomes[j], dir) != 0
  }

  /** It stopped the transfers, and unless it timed out only those before it have moved anything. */
  ghost predicate StoppedAt(cuts: seq<nat>, outcomes: seq<Outcome>, busy: bool, dir: Dir, j: nat, ret: int,
                            u0: seq<byte>, w0: seq<byte>, u: seq<byte>, w: seq<byte>)
    requires |outcomes| < |cuts|
  {
    FirstFailure(cuts, outcomes, busy, dir, j, ret) && (ret != -ETIMEDOUT ==> Moved(dir, u0, w0, u, w, cuts, j))
  }

  ghost predicate Stopped(cuts: seq<nat>, outcomes: seq<Outcome>, busy: bool, dir: Dir, ret: int,
                          u0: seq<byte>, w0: seq<byte>, u: seq<byte>, w: seq<byte>)
    requires |outcomes| < |cuts|
  {
    exists j :: StoppedAt(cuts, outcomes, busy, dir, j, ret, u0, w0, u, w)
  }

  // ---- The device ----

  class EduDev {
    const window: array<byte>
    var inFlight: bool

    constructor ()
      ensures Valid() && fresh(window)
    {
      window := new byte[DMA_BUF_SIZE](_ => 0);
      inFlight := false;
    }

    ghost predicate Valid()
      reads this
    {
      window.Length == DMA_BUF_SIZE
    }

    /** `edu_dma_transfers` between the window and `user[at..at + size]`. */
    method Transfer(user: array<byte>, at: nat, dir: Dir, size: nat, outcome: Outcome) returns (ret: int)
      requires Valid() && at + size <= user.Length && user != window
      modifies this`inFlight, user, window
      ensures inFlight == old(inFlight)
      ensures ret == Result(size, inFlight, outcome, dir)
      ensures ret == 0 && dir.DevToRam? ==> user[..] == Splice(old(user[..]), at, window[..size])
      ensures ret == 0 && dir.RamToDev? ==> window[..] == Splice(old(window[..]), 0, user[at..at + size])
      ensures ret == -ETIMEDOUT && dir.DevToRam? ==>
        user[..] == Splice(old(user[..]), at, window[..Min(outcome.copied, size)])
      ensures ret == -ETIMEDOUT && dir.RamToDev? ==>
        window[..] == Splice(old(window[..]), 0, user[at..at + Min(outcome.copied, size)])
      ensures dir.RamToDev? || ret !in {0, -ETIMEDOUT} ==> user[..] == old(user[..])
      ensures dir.DevToRam? || ret !in {0, -ETIMEDOUT} ==> window[..] == old(window[..])
    {
      if size > DMA_BUF_SIZE {
        return -EINVAL;
      }
      if outcome.Interrupted? {
        return -ERESTARTSYS;
      }
      if inFlight {
        return -EBUSY;
      }
      inFlight := true;
      if dir.Other? {
        inFlight := false;
        return -EINVAL;
      }
      var n := if outcome.Complete? then size else Min(outcome.copied, size);
      if dir.RamToDev? {
        forall i | 0 <= i < n {
          window[i] := user[at + i];
        }
      } else {
        forall i | 0 <= i < n {
          user[at + i] := window[i];
        }
      }
      ret := if outcome.Complete? then 0 else -ETIMEDOUT;
      inFlight := false;
    }

    /** The `for_each_sg` loop: one transfer per mapped segment, stopping at the first failure. */
    method TransferAll(user: array<byte>, dir: Dir, cuts: seq<nat>, outcomes: seq<Outcome>) returns (ret: int)
      requires Valid() && Cuts(cuts, user.Length) && user != window && |outcomes| == |cuts| - 1
      modifies this`inFlight, user, window
      ensures inFlight == old(inFlight)
      ensures ret == 0 <==> AllSucceed(cuts, outcomes, inFlight, dir, |outcomes|)
      ensures ret != 0 ==>
        Stopped(cuts, outcomes, inFlight, dir, ret, old(user[..]), old(window[..]), user[..], window[..])
      ensures ret == 0 ==> Moved(dir, old(user[..]), old(window[..]), user[..], window[..], cuts, |outcomes|)
    {
      ret := 0;
      ghost var u0, w0 := user[..], window[..];
      for j := 0 to |outcomes|
        invariant ret == 0 && inFlight == old(inFlight)
        invariant AllSucceed(cuts, outcomes, inFlight, dir, j)
        invariant Moved(dir, u0, w0, user[..], window[..], cuts, j)
      {
        ghost var u, w := user[..], window[..];
        assert cuts[j] < cuts[j + 1] && (j + 1 < |cuts| - 1 ==> cuts[j + 1] < cuts[|cuts| - 1]);
        ret := Transfer(user, cuts[j], dir, Size(cuts, j), outcomes[j]);
        if ret != 0 {
          assert StoppedAt(cuts, outcomes, inFlight, dir, j, ret, u0, w0, user[..], window[..]);
          return;
        }
        assert AllSucceed(cuts, outcomes, inFlight, dir, j + 1);
        MoveOne(dir, u0, w0, u, w, user[..], window[..], cuts, j);
      }
    }
  }

  /** Filling one segment with the prefix leaves the segments before it. */
  lemma PrefixesStay(user: seq<byte>, window: seq<byte>, cuts: seq<nat>, k: nat)
    requires Cuts(cuts, |user|) && PieceOk(cuts, k, |user|, |window|)
    requires forall i :: 0 <= i < k ==> HoldsPrefix(user, window, cuts, i)
    ensures var after := Splice(user, cuts[k], window[..Size(cuts, k)]);
      forall i :: 0 <= i <= k ==> HoldsPrefix(after, window, cuts, i)
  {
    var after := Splice(user, cuts[k], window[..Size(cuts, k)]);
    forall i | 0 <= i <= k ensures HoldsPrefix(after, window, cuts, i) {
      if i < k {
        assert HoldsPrefix(user, window, cuts, i) && cuts[i + 1] <= cuts[k];
        assert after[cuts[i]..cuts[i + 1]] == user[cuts[i]..cuts[i + 1]];
      }
    }
  }

  // ---- Everything acquired is released ----

  /** What one call holds: arrays, mappings, and pinned pages by their number in the range. */
  datatype Held = Held(pageArrays: nat, lists: nat, mappings: nat, pins: set<nat>)

  const NOTHING := Held(0, 0, 0, {})

  predicate Inside(first: int, p: int, end: int) {
    first <= p < end
  }

  function Pages(first: int, end: int): set<nat> {
    set p: nat | p < end && Inside(first, p, end)
  }

  /** What the kernel does with the requests of one call. */
  datatype Kernel = Kernel(
    pagesOk: bool,            // kmalloc_array of the page array
    fast: int,                // pin_user_pages_fast
    slow: int,                // pin_user_pages
    listOk: bool,             // kmalloc_array of the scatterlist
    groups: seq<nat>,         // dma_map_sg: where the mapped segments start, [] on failure
    outcomes: seq<Outcome>)

  /** The kernel answers within its contracts; no allocation spans the address space. */
  ghost predicate Possible(k: Kernel, start: nat, length: nat)
    requires start < WORD
  {
    var n := NrPages(start, length);
    && (k.pagesOk ==> n < WORD / PAGE_SIZE) && k.fast <= n && k.slow <= n
    && (k.groups != [] ==> 0 < length && Merges(k.groups, n) && |k.outcomes| == |k.groups| - 1)
  }

  /** The mapped segments of a call, as cuts of the user range. */
  ghost predicate CutsOf(cuts: seq<nat>, k: Kernel, start: nat, length: nat)
    requires start < WORD
  {
    && Cuts(cuts, length) && |k.outcomes| == |cuts| - 1
    && exists segs :: |segs| == NrPages(start, length) && Partition(segs, start % PAGE_SIZE, start % PAGE_SIZE + length)
        && |cuts| == |k.groups| && forall j :: 0 <= j < |cuts| ==> cuts[j] == Bound(segs, length, k.groups[j])
  }

  lemma CutsFound(cuts: seq<nat>, k: Kernel, start: nat, length: nat, segs: seq<Seg>)
    requires start < WORD && Cuts(cuts, length) && |k.outcomes| == |cuts| - 1 && |cuts| == |k.groups|
    requires |segs| == NrPages(start, length) && Partition(segs, start % PAGE_SIZE, start % PAGE_SIZE + length)
    requires forall j :: 0 <= j < |cuts| ==> cuts[j] == Bound(segs, length, k.groups[j])
    ensures CutsOf(cuts, k, start, length)
  {
  }

  class Host {
    const dev: EduDev
    var held: Held

    constructor (dev: EduDev)
      ensures this.dev == dev && held == NOTHING
    {
      this.dev := dev;
      held := NOTHING;
    }

    /** `kfree`; each of the releasing methods needs something to release. */
    method FreePageArray()
      requires held.pageArrays > 0
      modifies this`held
      ensures held == old(held).(pageArrays := old(held).pageArrays - 1)
    {
      held := held.(pageArrays := held.pageArrays - 1);
    }

    method FreeList()
      requires held.lists > 0
      modifies this`held
      ensures held == old(held).(lists := old(held).lists - 1)
    {
      held := held.(lists := held.lists - 1);
    }

    method Unmap()
      requires held.mappings > 0
      modifies this`held
      ensures held == old(held).(mappings := old(held).mappings - 1)
    {
      held := held.(mappings := held.mappings - 1);
    }

    method UnpinPage(page: nat)
      requires page in held.pins
      modifies this`held
      ensures held == old(held).(pins := old(held).pins - {page})
    {
      held := held.(pins := held.pins - {page});
    }

    /** `pin_user_pages` and its fast form: `n` pages, or an error. */
    method PinPages(n: int)
      requires held.pins == {}
      modifies this`held
      ensures held == old(held).(pins := Pages(0, n))
    {
      held := held.(pins := Pages(0, n));
    }

    /** The loop over `unpin_user_page`, and `unpin_user_pages`. */
    method UnpinPages(n: nat)
      requires held.pins == Pages(0, n)
      modifies this`held
      ensures held == old(held).(pins := {})
    {
      var i := 0;
      while i < n
        invariant i <= n && held == old(held).(pins := Pages(i, n))
      {
        UnpinPage(i);
        i := i + 1;
      }
    }

    /** Pins the range the fast way, or else lets go of what that got and pins it the slow way. */
    method GetPages(nrPages: nat, fast: int, slow: int) returns (pinned: int)
      requires held.pins == {}
      modifies this`held
      ensures pinned == if fast == nrPages then fast else slow
      ensures held == old(held).(pins := Pages(0, pinned))
    {
      pinned := fast;
      PinPages(pinned);
      if pinned == nrPages {
        return;
      }
      if pinned > 0 {
        UnpinPages(pinned);
      }
      pinned := slow;
      PinPages(pinned);
    }

    /** From the filled list, mapped, to the end of the last transfer. */
    method StreamMapped(segs: seq<Seg>, ghost first: nat, user: array<byte>, dir: Dir, k: Kernel)
      returns (ret: int, cuts: seq<nat>)
      requires dev.Valid() && user != dev.window && 0 < user.Length
      requires Partition(segs, first, first + user.Length)
      requires Merges(k.groups, |segs|) && |k.outcomes| == |k.groups| - 1
      modifies this`held, dev`inFlight, dev.window, user
      ensures held == old(held) && dev.inFlight == old(dev.inFlight)
      ensures Cuts(cuts, user.Length) && |cuts| == |k.groups|
      ensures forall j :: 0 <= j < |cuts| ==> cuts[j] == Bound(segs, user.Length, k.groups[j])
      ensures ret == 0 <==> AllSucceed(cuts, k.outcomes, dev.inFlight, dir, |k.outcomes|)
      ensures ret != 0 ==> Stopped(cuts, k.outcomes, dev.inFlight, dir, ret,
                                   old(user[..]), old(dev.window[..]), user[..], dev.window[..])
      ensures ret == 0 ==>
        Moved(dir, old(user[..]), old(dev.window[..]), user[..], dev.window[..], cuts, |k.outcomes|)
    {
      held := held.(mappings := held.mappings + 1);
      cuts := CutsFrom(segs, first, user.Length, k.groups);
      ret := dev.TransferAll(user, dir, cuts, k.outcomes);
      Unmap();
    }

    /** From the pinned pages to the end of the last transfer. */
    method Stream(start: nat, user: array<byte>, dir: Dir, k: Kernel) returns (ret: int, ghost cuts: seq<nat>)
      requires dev.Valid() && user != dev.window && start < WORD && user.Length < 0x1_0000_0000
      requires Possible(k, start, user.Length)
      modifies this`held, dev`inFlight, dev.window, user
      ensures held == old(held) && dev.inFlight == old(dev.inFlight)
      ensures !k.listOk || k.groups == [] ==> ret == -ENOMEM
      ensures k.listOk && k.groups != [] ==> CutsOf(cuts, k, start, user.Length)
      ensures k.listOk && k.groups != [] ==>
        && (ret == 0 <==> AllSucceed(cuts, k.outcomes, dev.inFlight, dir, |k.outcomes|))
        && (ret != 0 ==> Stopped(cuts, k.outcomes, dev.inFlight, dir, ret,
                                 old(user[..]), old(dev.window[..]), user[..], dev.window[..]))
      ensures ret == 0 ==>
        Moved(dir, old(user[..]), old(dev.window[..]), user[..], dev.window[..], cuts, |k.outcomes|)
    {
      cuts := [];
      if !k.listOk {
        return -ENOMEM, cuts;
      }
      held := held.(lists := held.lists + 1);
      var segs, remaining := BuildSegments(start, user.Length, NrPages(start, user.Length));
      if remaining > 0 {
        // the branch that frees the list and returns -EFAULT is never taken
        assert false;
      }
      if k.groups == [] {
        FreeList();
        return -ENOMEM, cuts;
      }
      ret, cuts := StreamMapped(segs, start % PAGE_SIZE, user, dir, k);
      CutsFound(cuts, k, start, user.Length, segs);
      FreeList();
    }

    /**
     `do_sg_dma`: whatever the kernel answers, every page is unpinned, every array freed and every
     mapping undone exactly once, and success means that every mapped segment was transferred.
     */
    method DoSgDma(start: nat, user: array<byte>, dir: Dir, k: Kernel) returns (ret: int, ghost cuts: seq<nat>)
      requires dev.Valid() && user != dev.window && start < WORD && user.Length < 0x1_0000_0000
      requires held == NOTHING && Possible(k, start, user.Length)
      modifies this`held, dev`inFlight, dev.window, user
      ensures held == NOTHING && dev.inFlight == old(dev.inFlight)
      ensures ret == 0 ==> user.Length > 0
      ensures !k.pagesOk ==> ret == -ENOMEM
      ensures var nr := NrPages(start, user.Length);
        var pinned := if k.fast == nr then nr else k.slow;
        && (k.pagesOk && pinned < nr ==> ret == if pinned < 0 then pinned else -EFAULT)
        && (k.pagesOk && pinned == nr && (!k.listOk || k.groups == []) ==> ret == -ENOMEM)
        && (k.pagesOk && pinned == nr && k.listOk && k.groups != [] ==>
            && CutsOf(cuts, k, start, user.Length)
            && (ret == 0 <==> AllSucceed(cuts, k.outcomes, dev.inFlight, dir, |k.outcomes|))
            && (ret != 0 ==> Stopped(cuts, k.outcomes, dev.inFlight, dir, ret,
                                     old(user[..]), old(dev.window[..]), user[..], dev.window[..])))
      ensures ret == 0 ==> CutsOf(cuts, k, start, user.Length)
      ensures ret == 0 ==>
        Moved(dir, old(user[..]), old(dev.window[..]), user[..], dev.window[..], cuts, |k.outcomes|)
    {
      cuts := [];
      var nrPages := NrPages(start, user.Length);
      if !k.pagesOk {
        return -ENOMEM, cuts;
      }
      held := held.(pageArrays := held.pageArrays + 1);
      var pinned := GetPages(nrPages, k.fast, k.slow);
      if pinned < 0 {
        FreePageArray();
        return pinned, cuts;
      }
      if pinned < nrPages {
        ret := -EFAULT;
      } else {
        ret, cuts := Stream(start, user, dir, k);
      }
      UnpinPages(pinned);
      FreePageArray();
    }
  }

  method CutsFrom(segs: seq<Seg>, ghost first: nat, length: nat, groups: seq<nat>) returns (cuts: seq<nat>)
    requires 0 < length && Partition(segs, first, first + length) && Merges(groups, |segs|)
    ensures Cuts(cuts, length) && |cuts| == |groups|
    ensures forall j :: 0 <= j < |cuts| ==> cuts[j] == Bound(segs, length, groups[j])
  {
    forall j | 0 <= j < |groups| ensures Bound(segs, length, groups[j]) >= 0 {
      assert j < |groups| - 1 ==> groups[j] < groups[|groups| - 1];
      BoundsGrow(segs, first, length, groups[j], groups[j]);
    }
    cuts := seq(|groups|, j requires 0 <= j < |groups| => Bound(segs, length, groups[j]));
    MergedCuts(segs, first, length, groups, cuts);
  }
}
