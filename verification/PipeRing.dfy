/**
 The circular buffer behind a scull pipe: the arithmetic on the read and write
 pointers (kept as offsets from `start`), and what it means as a FIFO queue.
 */
module PipeRing {
  import opened Common

  lemma OneTurn(x: nat, size: nat)
    requires 0 < size && x <= 2 * size
    ensures x % size == if x < size then x else if x < 2 * size then x - size else 0
  {
    var q, rest := x / size, x % size;
    assert x == q * size + rest;
    assert q * size == (q - 3) * size + 3 * size;
    assert q >= 3 ==> (q - 3) * size >= 0;
  }

  /** `get_spacefree`: free bytes seen by someone who loaded `rp` and `wp`; -1 is possible on a half-done update. */
  function SpaceFree(rp: nat, wp: nat, size: nat): (n: int)
    requires 0 < size && rp <= size && wp <= size
    ensures rp == wp ==> n == size - 1
    ensures rp > wp ==> n == if rp - wp == size then -1 else rp - wp - 1
    ensures rp < wp ==> n == if wp - rp == size then -1 else size - (wp - rp) - 1
  {
    if rp == wp then size - 1
    else
      OneTurn(rp - wp + size, size);
      (rp - wp + size) % size - 1
  }

  datatype Ring = Ring(buf: seq<byte>, rp: nat, wp: nat) {
    /** Both pointers inside [start, end): what holds whenever the semaphore is free. */
    ghost predicate Valid() {
      rp < |buf| && wp < |buf|
    }

    /**
     What holds in the middle of a pointer update: at most one pointer stands on `end`, and `wp` not
     over a full ring.
     */
    ghost predicate HalfDone() {
      0 < |buf| && rp <= |buf| && wp <= |buf| && (wp == |buf| ==> 0 < rp < |buf|)
    }

    /** The queued bytes, oldest first. */
    ghost function Contents(): seq<byte>
      requires HalfDone()
    {
      if rp <= wp then buf[rp..wp] else buf[rp..] + buf[..wp]
    }

    /** How much one read takes: never past `end`, never past `wp`. */
    function ReadCount(count: nat): nat
      requires Valid()
    {
      if wp > rp then Min(count, wp - rp) else Min(count, |buf| - rp)
    }

    /** How much one write stores: bounded by the free space, by `end`, and by `rp - 1`. */
    function WriteCount(count: nat): (n: int)
      requires Valid()
    {
      var c := Min(count, SpaceFree(rp, wp, |buf|));
      if wp >= rp then
        var bytesToEnd := |buf| - wp;
        if bytesToEnd > 0 then Min(c, bytesToEnd) else c
      else Min(c, rp - wp - 1)
    }

    /** `rp += n`, before the wrap test. */
    function AdvanceRead(n: nat): Ring {
      this.(rp := rp + n)
    }

    /** The copy into the buffer and `wp += n`, before the wrap test. */
    function AdvanceWrite(data: seq<byte>): Ring
      requires wp + |data| <= |buf|
    {
      this.(buf := Splice(buf, wp, data), wp := wp + |data|)
    }

    function WrapRead(): Ring {
      if rp == |buf| then this.(rp := 0) else this
    }

    function WrapWrite(): Ring {
      if wp == |buf| then this.(wp := 0) else this
    }
  }

  /** Full is never confused with empty: one slot always stays free. */
  lemma SpaceLaw(r: Ring)
    requires r.Valid()
    ensures |r.Contents()| + SpaceFree(r.rp, r.wp, |r.buf|) == |r.buf| - 1
    ensures r.rp == r.wp <==> r.Contents() == []
  {
    if r.rp > r.wp {
      assert |r.Contents()| == |r.buf| - r.rp + r.wp;
    }
  }

  /** A read takes a prefix of the queue; the wrap changes nothing that a FIFO user can see. */
  lemma ReadTakesPrefix(r: Ring, count: nat)
    requires r.Valid() && r.rp != r.wp
    ensures var n := r.ReadCount(count);
      && n <= |r.Contents()| && r.rp + n <= |r.buf|
      && r.buf[r.rp..r.rp + n] == r.Contents()[..n]
      && r.AdvanceRead(n).HalfDone() && r.AdvanceRead(n).Contents() == r.Contents()[n..]
      && (count > 0 ==> n > 0)
  {
    var n := r.ReadCount(count);
    var r' := r.AdvanceRead(n);
    if r.rp <= r.wp {
      assert r.Contents()[..n] == r.buf[r.rp..r.wp][..n] == r.buf[r.rp..r.rp + n];
    } else {
      assert r.Contents()[..n] == r.buf[r.rp..][..n] == r.buf[r.rp..r.rp + n];
      assert r'.Contents() == r.buf[r'.rp..] + r.buf[..r.wp];
    }
  }

  /**
   A write that passed the space test stores a non-empty prefix of its data behind the queue and
   never makes `wp` reach `rp`.
   */
  lemma WriteAppends(r: Ring, data: seq<byte>)
    requires r.Valid() && SpaceFree(r.rp, r.wp, |r.buf|) != 0
    ensures var n := r.WriteCount(|data|);
      && 0 <= n <= |data| && r.wp + n <= |r.buf|
      && n <= SpaceFree(r.rp, r.wp, |r.buf|)
      && (|data| > 0 ==> n > 0)
      && var r' := r.AdvanceWrite(data[..n]);
      && r'.HalfDone() && r'.Contents() == r.Contents() + data[..n]
      && (n > 0 ==> r'.WrapWrite().wp != r.rp)
  {
    var n := r.WriteCount(|data|);
    var r' := r.AdvanceWrite(data[..n]);
    assert r'.buf[r.wp..r.wp + n] == data[..n];
    if r.rp <= r.wp {
      assert r'.Contents() == r'.buf[r.rp..r.wp] + r'.buf[r.wp..r.wp + n];
      assert r'.buf[r.rp..r.wp] == r.buf[r.rp..r.wp];
    } else {
      assert r'.buf[..r'.wp] == r'.buf[..r.wp] + r'.buf[r.wp..r.wp + n];
      assert r'.buf[..r.wp] == r.buf[..r.wp] && r'.buf[r.rp..] == r.buf[r.rp..];
    }
  }

  /** A copy that breaks off before `wp` moves has only touched free bytes. */
  lemma BrokenCopyIsInvisible(r: Ring, data: seq<byte>)
    requires r.Valid() && SpaceFree(r.rp, r.wp, |r.buf|) != 0 && |data| <= r.WriteCount(|data|)
    ensures r.wp + |data| <= |r.buf|
    ensures var r' := r.(buf := Splice(r.buf, r.wp, data));
      r'.Valid() && r'.Contents() == r.Contents()
  {
    assert data[..|data|] == data;
    WriteAppends(r, data);
    var r' := r.(buf := Splice(r.buf, r.wp, data));
    if r.rp <= r.wp {
      assert r'.buf[r.rp..r.wp] == r.buf[r.rp..r.wp];
    } else {
      assert r'.buf[..r.wp] == r.buf[..r.wp] && r'.buf[r.rp..] == r.buf[r.rp..];
    }
  }

  lemma WrapKeepsContents(r: Ring)
    requires r.HalfDone()
    ensures r.wp < |r.buf| ==> r.WrapRead().Valid() && r.WrapRead().Contents() == r.Contents()
    ensures r.rp < |r.buf| ==> r.WrapWrite().Valid() && r.WrapWrite().Contents() == r.Contents()
  {
    assert r.rp == |r.buf| ==> r.Contents() == r.buf[0..r.wp];
    assert r.wp == |r.buf| && r.rp > 0 ==> r.Contents() == r.buf[r.rp..] + r.buf[..0];
  }

  /** The whole locked section of a read: what it returns and what it leaves. */
  lemma ReadSection(r: Ring, count: nat)
    requires r.Valid() && r.rp != r.wp
    ensures var n := r.ReadCount(count);
      && n <= |r.Contents()| && r.rp + n <= |r.buf|
      && (count > 0 ==> n > 0)
      && var r' := r.AdvanceRead(n).WrapRead();
      && r'.Valid() && r.buf[r.rp..r.rp + n] + r'.Contents() == r.Contents()
  {
    ReadTakesPrefix(r, count);
    WrapKeepsContents(r.AdvanceRead(r.ReadCount(count)));
    PrefixAndRest(r.Contents(), r.ReadCount(count));
  }

  lemma PrefixAndRest(s: seq<byte>, n: nat)
    requires n <= |s|
    ensures s[..n] + s[n..] == s
  {
  }

  /** The whole locked section of a write. */
  lemma WriteSection(r: Ring, data: seq<byte>)
    requires r.Valid() && SpaceFree(r.rp, r.wp, |r.buf|) != 0
    ensures var n := r.WriteCount(|data|);
      && 0 <= n <= |data| && r.wp + n <= |r.buf|
      && (|data| > 0 ==> n > 0)
      && var r' := r.AdvanceWrite(data[..n]).WrapWrite();
      && r'.Valid() && r'.Contents() == r.Contents() + data[..n]
  {
    WriteAppends(r, data);
    WrapKeepsContents(r.AdvanceWrite(data[..r.WriteCount(|data|)]));
  }

  /** Two reads of sufficient size, with nobody in between, empty the ring and return all of it in order. */
  lemma TwoReadsDrain(r: Ring, count: nat)
    requires r.Valid() && r.rp != r.wp && count >= |r.buf|
    ensures var n := r.ReadCount(count);
      var mid := r.AdvanceRead(n).WrapRead();
      && mid.Valid()
      && (mid.rp == mid.wp ==> r.buf[r.rp..r.rp + n] == r.Contents())
      && (mid.rp != mid.wp ==>
          var m := mid.ReadCount(count);
          var done := mid.AdvanceRead(m).WrapRead();
          && done.Valid() && done.rp == done.wp
          && r.buf[r.rp..r.rp + n] + mid.buf[mid.rp..mid.rp + m] == r.Contents())
  {
    ReadTakesPrefix(r, count);
    var n := r.ReadCount(count);
    WrapKeepsContents(r.AdvanceRead(n));
    var mid := r.AdvanceRead(n).WrapRead();
    if mid.rp == mid.wp {
      SpaceLaw(mid);
    } else {
      ReadTakesPrefix(mid, count);
      WrapKeepsContents(mid.AdvanceRead(mid.ReadCount(count)));
    }
  }
}
