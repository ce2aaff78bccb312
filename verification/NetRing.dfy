/** The descriptor rings of the impair driver: fixed arrays with a producer and a consumer index. */
module NetRing {
  import opened Common
  import opened RxFilter

  const RING_SIZE := 1024

  /** A socket buffer; only what the driver looks at. */
  datatype Skb = Skb(id: nat, dst: Mac, len: nat)

  datatype Desc = Desc(data: Option<Skb>, len: nat, flags: nat)

  const EMPTY_DESC := Desc(None, 0, 0)

  function RingNext(index: nat): (next: nat)
    requires index < RING_SIZE
    ensures next == if index == RING_SIZE - 1 then 0 else index + 1
  {
    (index + 1) % RING_SIZE
  }

  /** CIRC_CNT for a ring of RING_SIZE slots. */
  function CircCount(head: nat, tail: nat): (n: nat)
    requires head < RING_SIZE && tail < RING_SIZE
    ensures n == if head >= tail then head - tail else head - tail + RING_SIZE
  {
    (head - tail) % RING_SIZE
  }

  /** CIRC_SPACE for a ring of RING_SIZE slots. */
  function CircSpace(head: nat, tail: nat): (n: nat)
    requires head < RING_SIZE && tail < RING_SIZE
    ensures n == RING_SIZE - 1 - CircCount(head, tail)
  {
    (tail - (head + 1)) % RING_SIZE
  }

  /** The slot `k` places after `from`. */
  ghost function Slot(from: nat, k: nat): nat
    requires from < RING_SIZE && k <= RING_SIZE
  {
    if from + k < RING_SIZE then from + k else from + k - RING_SIZE
  }

  /** The `n` slots from `from` on hold packets, all others are NULL. */
  ghost predicate Exactly(d: seq<Desc>, from: nat, n: nat)
    requires |d| == RING_SIZE && from < RING_SIZE && n <= RING_SIZE
  {
    forall k :: 0 <= k < RING_SIZE ==> (d[Slot(from, k)].data.Some? <==> k < n)
  }

  ghost function Packets(d: seq<Desc>, from: nat, n: nat): (s: seq<Skb>)
    requires |d| == RING_SIZE && from < RING_SIZE && n <= RING_SIZE && Exactly(d, from, n)
    ensures |s| == n
  {
    seq(n, k requires 0 <= k < n => d[Slot(from, k)].data.value)
  }

  lemma PushedPackets(d: seq<Desc>, from: nat, n: nat, desc: Desc)
    requires |d| == RING_SIZE && from < RING_SIZE && n < RING_SIZE && Exactly(d, from, n) && desc.data.Some?
    ensures var d' := d[Slot(from, n) := desc];
      Exactly(d', from, n + 1) && Packets(d', from, n + 1) == Packets(d, from, n) + [desc.data.value]
  {
    var d' := d[Slot(from, n) := desc];
    assert forall k :: 0 <= k < RING_SIZE && k != n ==> d'[Slot(from, k)] == d[Slot(from, k)];
  }

  lemma PoppedPackets(d: seq<Desc>, from: nat, n: nat)
    requires |d| == RING_SIZE && from < RING_SIZE && 0 < n <= RING_SIZE && Exactly(d, from, n)
    ensures var d' := d[from := d[from].(data := None)];
      && d[from].data == Some(Packets(d, from, n)[0])
      && Exactly(d', RingNext(from), n - 1)
      && Packets(d', RingNext(from), n - 1) == Packets(d, from, n)[1..]
  {
    var d' := d[from := d[from].(data := None)];
    var next := RingNext(from);
    assert Slot(from, 0) == from;
    forall k | 0 <= k < RING_SIZE ensures d'[Slot(next, k)].data.Some? <==> k < n - 1 {
      if k < RING_SIZE - 1 {
        assert Slot(next, k) == Slot(from, k + 1);
      }
    }
    assert forall k :: 0 <= k < n - 1 ==> Slot(next, k) == Slot(from, k + 1);
  }

  class ImpairRing {
    const desc: array<Desc>
    var size: nat
    var nextToUse: nat
    var nextToClean: nat
    ghost var live: seq<Skb>  // the queued packets, oldest first

    constructor ()
      ensures fresh(desc) && desc.Length == RING_SIZE
    {
      desc := new Desc[RING_SIZE](_ => EMPTY_DESC);
      size, nextToUse, nextToClean, live := 0, 0, 0, [];
    }

    ghost predicate Indexed()
      reads this
    {
      desc.Length == RING_SIZE && nextToUse < RING_SIZE && nextToClean < RING_SIZE
    }

    function Used(): nat
      requires Indexed()
      reads this
    {
      CircCount(nextToUse, nextToClean)
    }

    function Free(): nat
      requires Indexed()
      reads this
    {
      CircSpace(nextToUse, nextToClean)
    }

    /** The slots from `nextToClean` to `nextToUse` hold the queued packets in order, all others are NULL. */
    ghost predicate Valid()
      reads this, desc
    {
      && Indexed() && size == RING_SIZE
      && Exactly(desc[..], nextToClean, Used()) && live == Packets(desc[..], nextToClean, Used())
    }

    method Init(wanted: nat) returns (ok: bool)
      requires desc.Length == RING_SIZE
      modifies this, desc
      ensures ok <==> 0 < wanted <= RING_SIZE
      ensures ok ==> size == wanted && nextToUse == nextToClean == 0 && live == []
      ensures ok ==> forall i :: 0 <= i < RING_SIZE ==> desc[i] == if i < wanted then EMPTY_DESC else old(desc[i])
      ensures ok && wanted == RING_SIZE ==> Valid()
      ensures !ok ==> unchanged(this) && unchanged(desc)
    {
      if wanted == 0 || wanted > RING_SIZE {
        return false;
      }
      size := wanted;
      live := [];
      nextToUse, nextToClean := 0, 0;
      forall i | 0 <= i < wanted {
        desc[i] := EMPTY_DESC;
      }
      ok := true;
    }

    /** The producer: refuse when fewer than one slot is free, otherwise fill the descriptor and advance. */
    method Push(skb: Skb) returns (ok: bool)
      requires Valid()
      modifies this`nextToUse, this`live, desc
      ensures Valid()
      ensures ok <==> |old(live)| < RING_SIZE - 1
      ensures live == if ok then old(live) + [skb] else old(live)
      ensures ok ==> desc[old(nextToUse)] == Desc(Some(skb), skb.len % 65536, 0)
    {
      if Free() < 1 {
        return false;
      }
      var idx := nextToUse;
      ghost var was, n := desc[..], Used();
      desc[idx] := Desc(Some(skb), skb.len % 65536, 0);
      nextToUse := RingNext(idx);
      PushedPackets(was, nextToClean, n, desc[idx]);
      assert desc[..] == was[Slot(nextToClean, n) := desc[idx]];
      live := live + [skb];
      ok := true;
    }

    /** The consumer: take the oldest packet and clear its slot. */
    method Pop() returns (skb: Option<Skb>)
      requires Valid()
      modifies this`nextToClean, this`live, desc
      ensures Valid()
      ensures old(live) == [] ==> skb == None && live == []
      ensures old(live) != [] ==> skb == Some(old(live)[0]) && live == old(live)[1..]
    {
      if nextToClean == nextToUse {
        return None;
      }
      var idx := nextToClean;
      ghost var was := desc[..];
      PoppedPackets(was, idx, Used());
      skb := desc[idx].data;
      desc[idx] := desc[idx].(data := None);
      assert desc[..] == was[idx := was[idx].(data := None)];
      nextToClean := RingNext(idx);
      live := live[1..];
    }

    /** Teardown: every remaining packet is freed exactly once, in order, and every slot ends up NULL. */
    method FreeAll() returns (freed: seq<Skb>)
      requires Valid()
      modifies this, desc
      ensures freed == old(live)
      ensures forall i :: 0 <= i < RING_SIZE ==> desc[i].data.None?
      ensures nextToClean == nextToUse == size == 0
    {
      freed := [];
      var i: nat := nextToClean;
      ghost var left: nat := Used();
      while i != nextToUse
        invariant unchanged(this)
        invariant i < RING_SIZE && left == CircCount(nextToUse, i)
        invariant Exactly(desc[..], i, left)
        invariant freed + Packets(desc[..], i, left) == live
        decreases left
      {
        ghost var was := desc[..];
        PoppedPackets(was, i, left);
        if desc[i].data.Some? {
          freed := freed + [desc[i].data.value];
          desc[i] := desc[i].(data := None);
        }
        assert desc[..] == was[i := was[i].(data := None)];
        i := RingNext(i);
        left := left - 1;
      }
      forall j | 0 <= j < RING_SIZE ensures desc[j].data.None? {
        assert desc[..][Slot(i, CircCount(j, i))].data.None?;
      }
      nextToClean, nextToUse := 0, 0;
      size := 0;
    }
  }
}
