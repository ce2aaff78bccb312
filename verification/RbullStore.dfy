/**
 The segment loop of rbull on the backing store, without timeouts and
 concurrent requests: what a request moves, segment by segment.
 */
module RbullStore {
  import opened Common

  datatype Op = Read | Write | Zero | Unsupported
  datatype Status = Ok | IoError

  /** How many bytes the first `k` segments have. */
  function Length(segs: seq<seq<byte>>, k: nat): nat
    requires k <= |segs|
  {
    if k == 0 then 0 else Length(segs, k - 1) + |segs[k - 1]|
  }

  /** The bytes of the first `k` segments, in order. */
  function Flat(segs: seq<seq<byte>>, k: nat): (r: seq<byte>)
    requires k <= |segs|
    ensures |r| == Length(segs, k)
  {
    if k == 0 then [] else Flat(segs, k - 1) + segs[k - 1]
  }

  function Whole(segs: seq<seq<byte>>): seq<byte> {
    Flat(segs, |segs|)
  }

  /** How many of the first `k` segments come before the first that does not fit between `off` and `size`. */
  function Fitting(segs: seq<seq<byte>>, k: nat, off: nat, size: nat): (n: nat)
    requires k <= |segs|
    ensures n <= k
    ensures n > 0 ==> off + Length(segs, n) <= size
  {
    if k == 0 then 0
    else
      var n := Fitting(segs, k - 1, off, size);
      if n == k - 1 && off + Length(segs, k) <= size then k else n
  }

  lemma {:induction false} LengthGrows(segs: seq<seq<byte>>, j: nat, k: nat)
    requires j <= k <= |segs|
    ensures Length(segs, j) <= Length(segs, k)
    decreases k
  {
    if j < k {
      LengthGrows(segs, j, k - 1);
    }
  }

  predicate Ends(segs: seq<seq<byte>>, j: nat, off: nat, size: nat)
    requires j <= |segs|
  {
    off + Length(segs, j) <= size
  }

  /** The segments before the first overflow are those up to which all ends lie inside the store. */
  lemma {:induction false} FittingIsFirstOverflow(segs: seq<seq<byte>>, k: nat, off: nat, size: nat, n: nat)
    requires n <= k <= |segs|
    ensures n <= Fitting(segs, k, off, size) <==> forall j :: 0 < j <= n ==> Ends(segs, j, off, size)
    decreases k
  {
    if n < k {
      FittingIsFirstOverflow(segs, k - 1, off, size, n);
    } else if 0 < k {
      FittingIsFirstOverflow(segs, k - 1, off, size, k - 1);
      assert Fitting(segs, k, off, size) == k <==> Fitting(segs, k - 1, off, size) == k - 1 && Ends(segs, k, off, size);
    }
  }

  function Zeros(n: nat): (r: seq<byte>)
    ensures |r| == n && forall i :: 0 <= i < n ==> r[i] == 0
  {
    seq(n, _ => 0)
  }

  /** The store after an operation on the range where `bytes` would lie. */
  function Applied(op: Op, data: seq<byte>, off: nat, bytes: seq<byte>): (r: seq<byte>)
    requires off + |bytes| <= |data|
    ensures |r| == |data|
  {
    match op
    case Write => Splice(data, off, bytes)
    case Zero => Splice(data, off, Zeros(|bytes|))
    case _ => data
  }

  /** The store after the first `i` segments. */
  function Partly(op: Op, data: seq<byte>, off: nat, segs: seq<seq<byte>>, i: nat): (r: seq<byte>)
    requires i <= |segs| && (i > 0 ==> off + Length(segs, i) <= |data|)
    ensures |r| == |data|
  {
    if i == 0 then data else Applied(op, data, off, Flat(segs, i))
  }

  /** A request applies to the store exactly the segments before the first overflow. */
  function Stored(op: Op, data: seq<byte>, off: nat, segs: seq<seq<byte>>): seq<byte> {
    Partly(op, data, off, segs, Fitting(segs, |segs|, off, |data|))
  }

  /** Byte `b` of segment `i` comes after all the bytes of the segments before. */
  lemma {:induction false} FlatAt(segs: seq<seq<byte>>, k: nat, i: nat, b: nat)
    requires i < k <= |segs| && b < |segs[i]|
    ensures Length(segs, i) + b < Length(segs, k) && Flat(segs, k)[Length(segs, i) + b] == segs[i][b]
    decreases k
  {
    if i < k - 1 {
      FlatAt(segs, k - 1, i, b);
    }
  }

  /** Byte by byte: the segments before the overflow replace what they cover, by themselves or by zeros. */
  lemma StoredIs(op: Op, data: seq<byte>, off: nat, segs: seq<seq<byte>>, p: nat)
    requires p < |data|
    ensures var n := Fitting(segs, |segs|, off, |data|);
      var covered := off <= p < off + Length(segs, n);
      Stored(op, data, off, segs)[p] ==
        if op.Write? && covered then Flat(segs, n)[p - off] else if op.Zero? && covered then 0 else data[p]
  {
  }

  /** Segment `i` holds what lies at its place in the store. */
  ghost predicate FilledAt(data: seq<byte>, off: nat, segs: seq<seq<byte>>, i: nat, got: seq<byte>)
    requires i < |segs|
  {
    var at := off + Length(segs, i);
    at + |segs[i]| <= |data| && got == data[at..at + |segs[i]|]
  }

  /** A read has filled its first segments. */
  ghost predicate Filled(data: seq<byte>, off: nat, segs: seq<seq<byte>>, filled: seq<seq<byte>>) {
    |filled| <= |segs| && forall i: nat :: i < |filled| ==> FilledAt(data, off, segs, i, filled[i])
  }

  lemma FillOneMore(data: seq<byte>, off: nat, segs: seq<seq<byte>>, filled: seq<seq<byte>>, got: seq<byte>)
    requires Filled(data, off, segs, filled) && |filled| < |segs| && FilledAt(data, off, segs, |filled|, got)
    ensures Filled(data, off, segs, filled + [got])
  {
  }

  lemma SliceJoin(data: seq<byte>, a: nat, b: nat, c: nat)
    requires a <= b <= c <= |data|
    ensures data[a..c] == data[a..b] + data[b..c]
  {
  }

  /** However the buffer is cut, a read fills it with the range of the store. */
  lemma {:induction false} FilledIsRange(data: seq<byte>, off: nat, segs: seq<seq<byte>>,
                                         filled: seq<seq<byte>>, k: nat)
    requires Filled(data, off, segs, filled) && k <= |filled| && off + Length(segs, k) <= |data|
    ensures Flat(filled, k) == data[off..off + Length(segs, k)]
  {
    if 0 < k {
      FilledIsRange(data, off, segs, filled, k - 1);
      assert FilledAt(data, off, segs, k - 1, filled[k - 1]);
      assert Length(segs, k) == Length(segs, k - 1) + |segs[k - 1]|;
      assert Flat(filled, k) == Flat(filled, k - 1) + filled[k - 1];
      SliceJoin(data, off, off + Length(segs, k - 1), off + Length(segs, k));
    }
  }

  /** A write whose segments all fit lays all their bytes into the store. */
  lemma WholeWrite(data: seq<byte>, off: nat, written: seq<seq<byte>>)
    requires off + Length(written, |written|) <= |data|
    ensures |written| > 0 ==> Stored(Write, data, off, written) == Splice(data, off, Whole(written))
  {
    var n := |written|;
    forall j | 0 < j <= n ensures Ends(written, j, off, |data|) {
      LengthGrows(written, j, n);
    }
    FittingIsFirstOverflow(written, n, off, |data|, n);
  }

  lemma SplicedSlice(data: seq<byte>, off: nat, bytes: seq<byte>)
    requires off + |bytes| <= |data|
    ensures Splice(data, off, bytes)[off..off + |bytes|] == bytes
  {
  }

  /** A written range reads back as it was written, for any two ways of cutting it into segments. */
  lemma SegmentationsAgree(data: seq<byte>, off: nat, written: seq<seq<byte>>,
                           buffers: seq<seq<byte>>, filled: seq<seq<byte>>)
    requires off + Length(written, |written|) <= |data| && Length(buffers, |buffers|) == Length(written, |written|)
    requires Filled(Stored(Write, data, off, written), off, buffers, filled) && |filled| == |buffers|
    ensures Whole(filled) == Whole(written)
  {
    FilledIsRange(Stored(Write, data, off, written), off, buffers, filled, |buffers|);
    if written != [] {
      WholeWrite(data, off, written);
      SplicedSlice(data, off, Whole(written));
    }
  }

  lemma AppliedMore(op: Op, data: seq<byte>, off: nat, a: seq<byte>, b: seq<byte>)
    requires off + |a| + |b| <= |data|
    ensures Applied(op, Applied(op, data, off, a), off + |a|, b) == Applied(op, data, off, a + b)
  {
    assert Zeros(|a| + |b|) == Zeros(|a|) + Zeros(|b|);
    assert Splice(Splice(data, off, a), off + |a|, b) == Splice(data, off, a + b);
    assert Splice(Splice(data, off, Zeros(|a|)), off + |a|, Zeros(|b|)) == Splice(data, off, Zeros(|a|) + Zeros(|b|));
  }

  /** A segment that fits is moved on top of the ones before it. */
  lemma OneMoreSegment(op: Op, was: seq<byte>, off: nat, segs: seq<seq<byte>>, i: nat)
    requires i < |segs| && off + Length(segs, i + 1) <= |was|
    ensures var at := off + Length(segs, i);
      && at + |segs[i]| == off + Length(segs, i + 1)
      && Partly(op, was, off, segs, i + 1) == Applied(op, Partly(op, was, off, segs, i), at, segs[i])
      && (op.Read? ==> Partly(op, was, off, segs, i) == was)
  {
    var done := Flat(segs, i);
    AppliedMore(op, was, off, done, segs[i]);
    if i == 0 {
      assert Applied(op, was, off, []) == was;
    }
  }

  /** The loop stops at the first overflow and nowhere else. */
  lemma OverflowDecides(segs: seq<seq<byte>>, off: nat, size: nat, i: nat)
    requires i < |segs| && i <= Fitting(segs, |segs|, off, size)
    ensures i == Fitting(segs, |segs|, off, size) <==> off + Length(segs, i + 1) > size
  {
    FittingIsFirstOverflow(segs, |segs|, off, size, i);
    FittingIsFirstOverflow(segs, |segs|, off, size, i + 1);
    assert Ends(segs, i + 1, off, size) <==> off + Length(segs, i + 1) <= size;
  }

  class RbullDev {
    const data: array<byte>

    constructor (size: nat)
      ensures fresh(data) && data.Length == size
    {
      data := new byte[size](_ => 0);
    }

    /** The `switch` for segment `i`, which fits at `at`; `got` is what a read copies into it. */
    method MoveSegment(op: Op, at: nat, segs: seq<seq<byte>>, i: nat, ghost was: seq<byte>, ghost off: nat)
      returns (status: Status, got: seq<byte>)
      requires i < |segs| && at == off + Length(segs, i) && at + |segs[i]| <= data.Length == |was|
      requires data[..] == Partly(op, was, off, segs, i)
      modifies data
      ensures data[..] == Partly(op, was, off, segs, i + 1)
      ensures status.Ok? <==> !op.Unsupported?
      ensures op.Read? ==> FilledAt(was, off, segs, i, got)
    {
      OneMoreSegment(op, was, off, segs, i);
      status, got := Ok, [];
      match op {
        case Read => got := data[at..at + |segs[i]|];
        case Write => Overwrite(at, segs[i]);
        case Zero => Overwrite(at, Zeros(|segs[i]|));
        case Unsupported => status := IoError;
      }
    }

    /**
     The segment loop of `rbull_rq_work`. `filled` are the segments of a read that were
     filled; the rest of its buffers keep what they held.
     */
    method Transfer(op: Op, off: nat, segs: seq<seq<byte>>) returns (status: Status, filled: seq<seq<byte>>)
      modifies data
      ensures data[..] == Stored(op, old(data[..]), off, segs)
      ensures var n := Fitting(segs, |segs|, off, data.Length);
        && (status.Ok? <==> n == |segs| && (op.Unsupported? ==> segs == []))
        && |filled| == (if op.Read? then n else 0)
      ensures Filled(old(data[..]), off, segs, filled)
    {
      status, filled := Ok, [];
      var devOff := off;
      ghost var was := data[..];
      var i := 0;
      while i < |segs|
        invariant i <= Fitting(segs, |segs|, off, data.Length) <= |segs|
        invariant devOff == off + Length(segs, i) && (i > 0 ==> devOff <= data.Length)
        invariant data[..] == Partly(op, was, off, segs, i)
        invariant status.Ok? && (op.Unsupported? ==> i == 0)
        invariant Filled(was, off, segs, filled) && |filled| == if op.Read? then i else 0
      {
        OverflowDecides(segs, off, data.Length, i);
        if data.Length < devOff + |segs[i]| {
          return IoError, filled;
        }
        var got;
        status, got := MoveSegment(op, devOff, segs, i, was, off);
        if status.IoError? {
          return;
        }
        if op.Read? {
          FillOneMore(was, off, segs, filled, got);
          filled := filled + [got];
        }
        devOff := devOff + |segs[i]|;
        i := i + 1;
      }
    }

    /** `memcpy` or `memset` into the store. */
    method Overwrite(at: nat, bytes: seq<byte>)
      requires at + |bytes| <= data.Length
      modifies data
      ensures data[..] == Splice(old(data[..]), at, bytes)
    {
      forall k | 0 <= k < |bytes| {
        data[at + k] := bytes[k];
      }
    }
  }
}
